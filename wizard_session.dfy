/**
 * The wizard session that collects a CSV datastore definition page by page
 * and finally writes it as a csv-datastore element.
 */
module WizardSession {
  import opened Wrappers
  import opened Dom
  import opened TextValue
  import opened DatastoreXml
  import opened FileChecks

  /** The user-input errors a page can reject its input with. */
  datatype UserInputError =
    | CouldNotCreateDirectory(filepath: string)
    | CannotWriteToDirectory(filepath: string)
    | OnlyCsvAndTsvAllowed
    | CannotReadFile(filepath: string)
  {
    /** The text shown to the user. */
    function Message(): string {
      match this
      case CouldNotCreateDirectory(p) => "Could not create directory for file:\n" + p
      case CannotWriteToDirectory(p) => "Cannot write data to directory of file:\n" + p
      case OnlyCsvAndTsvAllowed =>
        "For security reasons, " + "only existing .csv and .tsv files " + "can be referenced on the server"
      case CannotReadFile(p) => "Cannot read from file:\n" + p
    }
  }

  /** The path a message ends with, after its fixed first line. */
  lemma PrefixedPath(prefix: string, p: string, q: string)
    requires prefix + p == prefix + q
    ensures p == q
  {
    assert p == (prefix + p)[|prefix|..];
    assert q == (prefix + q)[|prefix|..];
  }

  /** Which of the four errors it is, numbered in declaration order. */
  function ErrorKind(e: UserInputError): nat {
    match e
    case CouldNotCreateDirectory(_) => 0
    case CannotWriteToDirectory(_) => 1
    case OnlyCsvAndTsvAllowed => 2
    case CannotReadFile(_) => 3
  }

  /** The kind of error a message reports, told by its first, third and eighth characters. */
  function KindFromText(m: string): nat {
    if |m| < 8 then 0
    else if m[0] == 'F' then 2
    else if m[2] == 'u' then 0
    else if m[7] == 'w' then 1
    else 3
  }

  lemma KindOfMessage(e: UserInputError)
    ensures KindFromText(e.Message()) == ErrorKind(e)
  {
    var m := e.Message();
    match e
    case CouldNotCreateDirectory(p) =>
      var prefix := "Could not create directory for file:\n";
      assert m == prefix + p;
      assert m[0] == prefix[0] && m[2] == prefix[2];
    case CannotWriteToDirectory(p) =>
      var prefix := "Cannot write data to directory of file:\n";
      assert m == prefix + p;
      assert m[0] == prefix[0] && m[2] == prefix[2] && m[7] == prefix[7];
    case OnlyCsvAndTsvAllowed =>
      var prefix := "For security reasons, ";
      assert m == prefix + "only existing .csv and .tsv files " + "can be referenced on the server";
      assert |m| >= 8 && m[0] == prefix[0];
    case CannotReadFile(p) =>
      var prefix := "Cannot read from file:\n";
      assert m == prefix + p;
      assert m[0] == prefix[0] && m[2] == prefix[2] && m[7] == prefix[7];
  }

  /**
   * The message tells the errors apart: the kind of error and the path it
   * names can both be read back from the text shown to the user.
   */
  lemma MessageIdentifiesError(e1: UserInputError, e2: UserInputError)
    ensures e1.Message() == e2.Message() ==> e1 == e2
  {
    KindOfMessage(e1);
    KindOfMessage(e2);
    if e1.Message() == e2.Message() {
      match e1
      case CouldNotCreateDirectory(p) =>
        PrefixedPath("Could not create directory for file:\n", p, e2.filepath);
      case CannotWriteToDirectory(p) =>
        PrefixedPath("Cannot write data to directory of file:\n", p, e2.filepath);
      case OnlyCsvAndTsvAllowed =>
      case CannotReadFile(p) =>
        PrefixedPath("Cannot read from file:\n", p, e2.filepath);
    }
  }

  /** The file name the existing-file location page proposes. */
  const EXISTING_FILE_DEFAULT_NAME: string := "my_file.csv"

  /** The index the name-and-description page is created with. */
  const NAME_PAGE_INDEX: nat := 3

  /** The page controller the wizard currently shows, with what it was created with. */
  datatype Page =
    | UploadOrExistingFile
    | UploadLocation(filename: string, tempFile: File)
    | ExistingLocation(defaultFilename: string)
    | Configuration(file: File, filename: string)
    | NameAndDescription(pageIndex: nat, filename: string)
    | Finished
  {
    /** How many pages have been completed before this one. */
    function Stage(): nat {
      match this
      case UploadOrExistingFile => 0
      case UploadLocation(_, _) => 1
      case ExistingLocation(_) => 1
      case Configuration(_, _) => 2
      case NameAndDescription(_, _) => 3
      case Finished => 4
    }
  }

  /** getPageCount: the pages a user completes to finish, the last being the name page. */
  function PageCount(): (n: nat)
    ensures n == Finished.Stage()
    ensures n == NAME_PAGE_INDEX + 1
  {
    4
  }

  /** The session fields the pages write. */
  datatype Fields = Fields(
    file: Option<File>,
    filepath: Option<string>,
    configuration: Option<CsvConfiguration>,
    name: Option<string>,
    description: Option<string>)

  class Session {
    var file: Option<File>
    var filepath: Option<string>
    var configuration: Option<CsvConfiguration>
    var name: Option<string>
    var description: Option<string>
    var page: Page

    function Settings(): Fields
      reads this
    {
      Fields(file, filepath, configuration, name, description)
    }

    /** Each field is set once the page that writes it has been completed, and not before. */
    ghost predicate Valid()
      reads this
    {
      (file.Some? <==> page.Stage() >= 2) &&
      (filepath.Some? <==> page.Stage() >= 2) &&
      (configuration.Some? <==> page.Stage() >= 3) &&
      (name.Some? <==> page.Stage() >= 4) &&
      (page.Stage() < 4 ==> description.None?) &&
      (page.Configuration? ==> file == Some(page.file)) &&
      (page.ExistingLocation? ==> page.defaultFilename == EXISTING_FILE_DEFAULT_NAME) &&
      (page.NameAndDescription? ==> page.pageIndex == NAME_PAGE_INDEX)
    }

    /** A new session shows the upload-or-existing-file page and holds nothing yet. */
    constructor ()
      ensures Valid() && page == UploadOrExistingFile
      ensures Settings() == Fields(None, None, None, None, None)
    {
      file, filepath, configuration, name, description := None, None, None, None, None;
      page := UploadOrExistingFile;
    }

    /** The first page, after an upload: go to the location page for the uploaded file. */
    method ChooseUpload(filename: string, tempFile: File)
      requires Valid() && page.UploadOrExistingFile?
      modifies this
      ensures Valid() && page == UploadLocation(filename, tempFile)
      ensures page.Stage() == old(page.Stage()) + 1
      ensures Settings() == old(Settings())
    {
      page := UploadLocation(filename, tempFile);
    }

    /** The first page, referencing a file on the server: go to its location page. */
    method ChooseExisting()
      requires Valid() && page.UploadOrExistingFile?
      modifies this
      ensures Valid() && page == ExistingLocation(EXISTING_FILE_DEFAULT_NAME)
      ensures page.Stage() == old(page.Stage()) + 1
      ensures Settings() == old(Settings())
    {
      page := ExistingLocation(EXISTING_FILE_DEFAULT_NAME);
    }

    /**
     * The location page of an upload. It fails when the directory is missing
     * and cannot be created, or is not writable; then nothing changes.
     * Otherwise the file and its path are stored and the configuration page
     * follows.
     */
    method SubmitUploadLocation(filepath: string, file: File, directory: DirectoryStatus)
      returns (error: Option<UserInputError>)
      requires Valid() && page.UploadLocation?
      modifies this
      ensures Valid()
      ensures error == Some(CouldNotCreateDirectory(filepath)) <==>
        !directory.directoryExists && !directory.mkdirsSucceeds
      ensures error == Some(CannotWriteToDirectory(filepath)) <==>
        (directory.directoryExists || directory.mkdirsSucceeds) && !directory.canWrite
      ensures error.None? <==> (directory.directoryExists || directory.mkdirsSucceeds) && directory.canWrite
      ensures error.Some? ==> Settings() == old(Settings()) && page == old(page)
      ensures error.None? ==>
        Settings() == old(Settings()).(file := Some(file), filepath := Some(filepath)) &&
        page == Configuration(file, old(page).filename) &&
        page.Stage() == old(page.Stage()) + 1
    {
      if !directory.directoryExists && !directory.mkdirsSucceeds {
        return Some(CouldNotCreateDirectory(filepath));
      }
      if !directory.canWrite {
        return Some(CannotWriteToDirectory(filepath));
      }
      var filename := page.filename;
      this.file := Some(file);
      this.filepath := Some(filepath);
      page := Configuration(file, filename);
      error := None;
    }

    /**
     * The location page of a file already on the server. Only paths ending in
     * .csv or .tsv (in any letter case) are accepted, and a file that exists
     * but cannot be read is refused; then nothing changes. Otherwise the file
     * and its path are stored and the configuration page follows.
     */
    method SubmitExistingLocation(filepath: string, file: File, status: FileStatus)
      returns (error: Option<UserInputError>)
      requires Valid() && page.ExistingLocation?
      modifies this
      ensures Valid()
      ensures error == Some(OnlyCsvAndTsvAllowed) <==> !HasAllowedExtension(filepath)
      ensures error == Some(CannotReadFile(filepath)) <==>
        HasAllowedExtension(filepath) && status.fileExists && !status.canRead
      ensures error.None? <==> HasAllowedExtension(filepath) && (!status.fileExists || status.canRead)
      ensures error.Some? ==> Settings() == old(Settings()) && page == old(page)
      ensures error.None? ==>
        Settings() == old(Settings()).(file := Some(file), filepath := Some(filepath)) &&
        page == Configuration(file, file.Name()) &&
        page.Stage() == old(page.Stage()) + 1
    {
      var lower := ToLower(filepath);
      if !EndsWith(lower, ".csv") {
        if !EndsWith(lower, ".tsv") {
          return Some(OnlyCsvAndTsvAllowed);
        }
      }
      if status.fileExists && !status.canRead {
        return Some(CannotReadFile(filepath));
      }
      this.file := Some(file);
      this.filepath := Some(filepath);
      page := Configuration(file, file.Name());
      error := None;
    }

    /** The configuration page stores the settings and shows the name page (index 3). */
    method SubmitConfiguration(configuration: CsvConfiguration)
      requires Valid() && page.Configuration?
      modifies this
      ensures Valid()
      ensures Settings() == old(Settings()).(configuration := Some(configuration))
      ensures page == NameAndDescription(NAME_PAGE_INDEX, old(page).filename)
      ensures page.Stage() == old(page.Stage()) + 1
    {
      this.configuration := Some(configuration);
      page := NameAndDescription(NAME_PAGE_INDEX, page.filename);
    }

    /** The name page stores exactly the name and the description and ends the wizard. */
    method SubmitNameAndDescription(name: string, description: Option<string>)
      requires Valid() && page.NameAndDescription?
      modifies this
      ensures Valid() && page == Finished
      ensures Settings() == old(Settings()).(name := Some(name), description := description)
      ensures page.Stage() == old(page.Stage()) + 1 == PageCount()
    {
      this.name := Some(name);
      this.description := description;
      page := Finished;
    }

    /** What a finished session holds, as the serialiser reads it. */
    function Definition(): DatastoreDefinition
      requires name.Some? && configuration.Some?
      reads this
    {
      DatastoreDefinition(name.value, description, filepath, configuration.value)
    }

    /**
     * createDatastoreElement: a new csv-datastore element with the name and
     * (unless null or empty) the description as attributes, and one child per
     * non-null setting, appended in the fixed order.
     */
    method CreateDatastoreElement() returns (e: Element)
      requires name.Some? && configuration.Some?
      ensures fresh(e)
      ensures e.Value() == Render(Definition())
    {
      var n, desc, fp, c := name.value, description, filepath, configuration.value;
      e := new Element(DATASTORE_TAG);
      e.SetAttribute("name", n);
      if !IsNullOrEmpty(desc) {
        e.SetAttribute("description", desc.value);
      }
      assert e.attributes == Attributes(n, desc);
      AppendElement(e, "filename", StringField(fp));
      AppendElement(e, "quote-char", CharField(c.quoteChar));
      AppendElement(e, "separator-char", CharField(c.separatorChar));
      AppendElement(e, "escape-char", CharField(c.escapeChar));
      AppendElement(e, "encoding", StringField(c.encoding));
      AppendElement(e, "fail-on-inconsistencies", BoolField(c.failOnInconsistentRowLength));
      AppendElement(e, "header-line-number", IntField(c.columnNameLineNumber));
      ChildrenInAppendOrder(fp, c);
      assert e.Value() == Render(DatastoreDefinition(n, desc, fp, c));
    }
  }

  /** A finished session holds everything createDatastoreElement dereferences. */
  lemma FinishedSessionIsComplete(s: Session)
    requires s.Valid() && s.page.Finished?
    ensures s.name.Some? && s.configuration.Some? && s.file.Some? && s.filepath.Some?
  {
  }
}
