# CSV datastore wizard session, modelled in Dafny

DataCleaner's monitor web application registers a CSV file as a datastore
through a wizard. The wizard session (`CsvDatastoreWizardSession`) walks the
user through four pages:

1. upload a file or reference one already on the server;
2. give the file's location;
3. choose the CSV parser settings (quote, separator and escape characters,
   encoding, header line, strictness);
4. name and describe the datastore.

Once the wizard is finished, the session writes the name, the description,
the file path and the parser settings it collected as a `csv-datastore` XML
element. The `File` object it also keeps is not written.

This project models that session and proves what it promises:

- **Character tokens** (`CharToken`). Character-valued settings are written
  as text. The "no character" sentinel becomes `NOT_A_CHAR`. Tab, line feed
  and carriage return become `\t`, `\n` and `\r`. Every other character
  is written as itself. The encoding is injective: a decoder reads back exactly
  the texts that were written, and nothing else.
- **Values as text** (`TextValue`). `appendElement` takes a String, a
  Character, a Boolean or an Integer and writes its `toString`, with
  characters escaped. Booleans (`true`/`false`) and decimal integers are
  proved to read back unchanged.
- **The element** (`Dom`, `DatastoreXml`). A small mutable `Element`
  class stands for the DOM element: a tag, string attributes and text-only
  children. `AppendElement` appends a child only for a non-null value.
  `CreateDatastoreElement` makes seven such calls in a fixed order. The
  lemmas prove the following:
  - the children keep that order, each present exactly when its setting is not
    null, so there are at most seven;
  - `name` is always an attribute, and `description` is one exactly when it
    is neither null nor empty;
  - a reader (`ParseElement`) recovers the definition from the element,
    except that an empty description reads back as null, since none is written.
- **Page transitions** (`FileChecks`, `WizardSession`). The session is a
  class whose `page` field is the page the wizard shows. Each page callback
  either rejects its input with a user-input error, leaving the session
  unchanged, or writes its fields and moves to the next page. The
  existing-file page accepts a path only if its lower-cased form ends in
  `.csv` or `.tsv`, and then refuses a file that exists but cannot be read.
  The upload page needs a directory that exists or can be created, and that
  can be written. The name page stores the name and the description and ends
  the wizard. `Valid()` states that each field is set exactly once its page
  has been completed.

File-system queries (`exists`, `mkdirs`, `canWrite`, `canRead`) are
values the callbacks receive (`FileStatus`, `DirectoryStatus`); nothing
touches a real file system.

The session's only path-safety rule is the extension whitelist on the
existing-file page: a server-side path that does not end in `.csv` or `.tsv`
is rejected as a security measure. No further path check, such as a
directory-traversal test, appears in this class, and the model adds none.

## Model

| member | source | states |
|---|---|---|
| CharToken.EncodeChar | extensions/csv-datastore-wizard/src/main/java/org/eobjects/datacleaner/monitor/server/wizard/CsvDatastoreWizardSession.java:165-176 | Every character other than the sentinel, tab, LF and CR is written as the one-character string holding it. Exactly those four escaped characters give texts longer than one character. The texts are decoded by DecodeChar (DecodeEncode, DecodeCharIff). |
| CharToken.EncodingTable | extensions/csv-datastore-wizard/src/main/java/org/eobjects/datacleaner/monitor/server/wizard/CsvDatastoreWizardSession.java:167-175 | The sentinel is written as NOT_A_CHAR; tab, LF and CR as a backslash followed by t, n or r. |
| CharToken.DecodeChar | extensions/csv-datastore-wizard/src/main/java/org/eobjects/datacleaner/monitor/server/wizard/CsvDatastoreWizardSession.java:165-176 | Whatever the decoder returns encodes back to the text it read, so it never accepts a text the encoder cannot produce. |
| CharToken.DecodeEncode | extensions/csv-datastore-wizard/src/main/java/org/eobjects/datacleaner/monitor/server/wizard/CsvDatastoreWizardSession.java:163-176 | Decoding the written text of any character gives that character back. |
| CharToken.DecodeCharIff | extensions/csv-datastore-wizard/src/main/java/org/eobjects/datacleaner/monitor/server/wizard/CsvDatastoreWizardSession.java:163-176 | A text decodes to c if and only if it is the encoding of c. |
| CharToken.EncodeCharInjective | extensions/csv-datastore-wizard/src/main/java/org/eobjects/datacleaner/monitor/server/wizard/CsvDatastoreWizardSession.java:165-176 | Two different characters are never written as the same text. |
| TextValue.TextContent | extensions/csv-datastore-wizard/src/main/java/org/eobjects/datacleaner/monitor/server/wizard/CsvDatastoreWizardSession.java:163-176 | The text content of a child: the toString of a string, boolean or integer value, and the escaped token of a character. TextContentRoundTrip proves that each kind of value is recovered from it. |
| TextValue.NatToString | extensions/csv-datastore-wizard/src/main/java/org/eobjects/datacleaner/monitor/server/wizard/CsvDatastoreWizardSession.java:163 | The decimal text of a natural number is non-empty, all digits, and has no leading zero. |
| TextValue.IntToString | extensions/csv-datastore-wizard/src/main/java/org/eobjects/datacleaner/monitor/server/wizard/CsvDatastoreWizardSession.java:163 | Integer text starts with '-' exactly for negative numbers; the rest is all digits. |
| TextValue.ParseNatToString | extensions/csv-datastore-wizard/src/main/java/org/eobjects/datacleaner/monitor/server/wizard/CsvDatastoreWizardSession.java:163 | Reading decimal digits back gives the number that was written. |
| TextValue.ParseIntToString | extensions/csv-datastore-wizard/src/main/java/org/eobjects/datacleaner/monitor/server/wizard/CsvDatastoreWizardSession.java:163 | The Integer toString text of every integer reads back as that integer. |
| TextValue.ParseBoolToString | extensions/csv-datastore-wizard/src/main/java/org/eobjects/datacleaner/monitor/server/wizard/CsvDatastoreWizardSession.java:163 | The Boolean toString text (true/false) reads back as the same boolean. |
| TextValue.TextContentRoundTrip | extensions/csv-datastore-wizard/src/main/java/org/eobjects/datacleaner/monitor/server/wizard/CsvDatastoreWizardSession.java:163-176 | Each kind of value appendElement receives is recovered from its text content: strings as they are, characters through the token decoder, booleans and integers by parsing. |
| Dom.Element.constructor | extensions/csv-datastore-wizard/src/main/java/org/eobjects/datacleaner/monitor/server/wizard/CsvDatastoreWizardSession.java:141 | A new element has the given tag, no attributes and no children. |
| Dom.Element.SetAttribute | extensions/csv-datastore-wizard/src/main/java/org/eobjects/datacleaner/monitor/server/wizard/CsvDatastoreWizardSession.java:142-144 | Setting an attribute updates that one attribute and leaves the children alone. |
| Dom.Element.AppendChild | extensions/csv-datastore-wizard/src/main/java/org/eobjects/datacleaner/monitor/server/wizard/CsvDatastoreWizardSession.java:180 | A child is added after all existing ones; the attributes are unchanged. |
| DatastoreXml.AppendElement | extensions/csv-datastore-wizard/src/main/java/org/eobjects/datacleaner/monitor/server/wizard/CsvDatastoreWizardSession.java:158-181 | A null value leaves the parent unchanged. Any other value appends exactly one child, at the end, with the given element name and the value's text. |
| DatastoreXml.ChildrenInAppendOrder | extensions/csv-datastore-wizard/src/main/java/org/eobjects/datacleaner/monitor/server/wizard/CsvDatastoreWizardSession.java:147-153 | The element's children are what the seven appendElement calls leave, in source order. |
| DatastoreXml.ChildrenFollowCalls | extensions/csv-datastore-wizard/src/main/java/org/eobjects/datacleaner/monitor/server/wizard/CsvDatastoreWizardSession.java:158-180 | For any sequence of appendElement calls, the child tags are exactly the tags of the calls with a non-null value, in call order (KeptTags). So they form a subsequence of the passed tags. |
| DatastoreXml.LookupChildrenOf | extensions/csv-datastore-wizard/src/main/java/org/eobjects/datacleaner/monitor/server/wizard/CsvDatastoreWizardSession.java:158-180 | When no tag is passed twice, looking up a tag among the children gives the text of the value passed with it, or nothing for null. |
| DatastoreXml.CreateLayoutTags | extensions/csv-datastore-wizard/src/main/java/org/eobjects/datacleaner/monitor/server/wizard/CsvDatastoreWizardSession.java:147-153 | createDatastoreElement passes filename, quote-char, separator-char, escape-char, encoding, fail-on-inconsistencies and header-line-number, in that order. |
| DatastoreXml.CreateLayoutValues | extensions/csv-datastore-wizard/src/main/java/org/eobjects/datacleaner/monitor/server/wizard/CsvDatastoreWizardSession.java:147-153 | Each of those tags is passed with its own setting: the file path, the three characters, the encoding, the strictness flag and the header line number. |
| DatastoreXml.ChildrenLayout | extensions/csv-datastore-wizard/src/main/java/org/eobjects/datacleaner/monitor/server/wizard/CsvDatastoreWizardSession.java:147-153 | The child tags form a subsequence of the fixed seven-tag order. There are at most 7 children. Each child is present exactly when its setting is not null, independently of the others. |
| DatastoreXml.LookupChildren | extensions/csv-datastore-wizard/src/main/java/org/eobjects/datacleaner/monitor/server/wizard/CsvDatastoreWizardSession.java:147-153 | Each of the seven tags finds the text of its own setting among the children. |
| DatastoreXml.NonEmpty | extensions/csv-datastore-wizard/src/main/java/org/eobjects/datacleaner/monitor/server/wizard/CsvDatastoreWizardSession.java:143 | The description that is written is the given one unless it is null or empty. |
| DatastoreXml.Attributes | extensions/csv-datastore-wizard/src/main/java/org/eobjects/datacleaner/monitor/server/wizard/CsvDatastoreWizardSession.java:142-145 | The name attribute is always set to the name. The description attribute is present exactly when the description is non-null and non-empty, and then holds it. No other attribute is set. |
| DatastoreXml.Render | extensions/csv-datastore-wizard/src/main/java/org/eobjects/datacleaner/monitor/server/wizard/CsvDatastoreWizardSession.java:137-156 | createDatastoreElement as a value: the csv-datastore tag, the attributes of Attributes and the children of the seven appendElement calls. Its properties are stated by Attributes, ChildrenLayout, LookupChildren and ParseRender. CreateDatastoreElement is proved to build it. |
| DatastoreXml.ParseChildren | extensions/csv-datastore-wizard/src/main/java/org/eobjects/datacleaner/monitor/server/wizard/CsvDatastoreWizardSession.java:147-176 | Reading the settings back from the children gives the configuration they were written from, including escaped characters, booleans and integers. |
| DatastoreXml.ParseRender | extensions/csv-datastore-wizard/src/main/java/org/eobjects/datacleaner/monitor/server/wizard/CsvDatastoreWizardSession.java:137-181 | Reading the element back gives the definition it was written from, except that an empty description reads back as null. |
| FileChecks.BaseName | extensions/csv-datastore-wizard/src/main/java/org/eobjects/datacleaner/monitor/server/wizard/CsvDatastoreWizardSession.java:104 | The last segment of a path. BaseNameIsLastSegment states that it is the longest '/'-free suffix. |
| FileChecks.File.Name | extensions/csv-datastore-wizard/src/main/java/org/eobjects/datacleaner/monitor/server/wizard/CsvDatastoreWizardSession.java:104 | File.getName: the BaseName of the file's path, which is passed on to the configuration page. |
| FileChecks.BaseNameIsLastSegment | extensions/csv-datastore-wizard/src/main/java/org/eobjects/datacleaner/monitor/server/wizard/CsvDatastoreWizardSession.java:104 | The file name passed on to the configuration page is the longest suffix of the path without '/'. |
| FileChecks.ToLower | extensions/csv-datastore-wizard/src/main/java/org/eobjects/datacleaner/monitor/server/wizard/CsvDatastoreWizardSession.java:88-89 | The lower-cased path has the same length, with each character lower-cased on its own (ASCII). |
| FileChecks.HasAllowedExtension | extensions/csv-datastore-wizard/src/main/java/org/eobjects/datacleaner/monitor/server/wizard/CsvDatastoreWizardSession.java:88-96 | The two nested endsWith tests of the existing-file page: the lower-cased path ends in .csv or in .tsv. AllowedExtensionIff states it character by character. |
| FileChecks.AllowedExtensionIff | extensions/csv-datastore-wizard/src/main/java/org/eobjects/datacleaner/monitor/server/wizard/CsvDatastoreWizardSession.java:88-96 | A path passes the extension test exactly when it ends in a dot followed by c or t, s and v, each in either letter case. |
| FileChecks.ExtensionExamples | extensions/csv-datastore-wizard/src/main/java/org/eobjects/datacleaner/monitor/server/wizard/CsvDatastoreWizardSession.java:88-96 | .csv, .CSV, .Tsv and .tSV are accepted after any stem; .txt, .csv.gz, _csv and a bare csv are rejected. |
| WizardSession.UserInputError.Message | extensions/csv-datastore-wizard/src/main/java/org/eobjects/datacleaner/monitor/server/wizard/CsvDatastoreWizardSession.java:68-99 | The four user-input error texts: could not create the directory, cannot write to it, only .csv and .tsv files allowed, cannot read the file. The first, second and fourth end with the file path on a new line. |
| WizardSession.MessageIdentifiesError | extensions/csv-datastore-wizard/src/main/java/org/eobjects/datacleaner/monitor/server/wizard/CsvDatastoreWizardSession.java:68-99 | Two errors with the same message are the same error: the message tells the kind of error and the path it names. |
| WizardSession.PageCount | extensions/csv-datastore-wizard/src/main/java/org/eobjects/datacleaner/monitor/server/wizard/CsvDatastoreWizardSession.java:52-54 | The session declares 4 pages. That equals the number of pages completed at the end, and the name page, created with index 3, is the last. |
| WizardSession.Session.constructor | extensions/csv-datastore-wizard/src/main/java/org/eobjects/datacleaner/monitor/server/wizard/CsvDatastoreWizardSession.java:47-49 | A new session shows the upload-or-existing page and holds no file, path, configuration, name or description. |
| WizardSession.Session.ChooseUpload | extensions/csv-datastore-wizard/src/main/java/org/eobjects/datacleaner/monitor/server/wizard/CsvDatastoreWizardSession.java:61-62 | After an upload the location page for the uploaded file follows; no session field changes. |
| WizardSession.Session.ChooseExisting | extensions/csv-datastore-wizard/src/main/java/org/eobjects/datacleaner/monitor/server/wizard/CsvDatastoreWizardSession.java:83-84 | Referencing a server file leads to the location page proposing my_file.csv; no session field changes. |
| WizardSession.Session.SubmitUploadLocation | extensions/csv-datastore-wizard/src/main/java/org/eobjects/datacleaner/monitor/server/wizard/CsvDatastoreWizardSession.java:65-78 | Fails with "could not create directory" when the directory is missing and cannot be created, and with "cannot write" when it is not writable. On any failure the session is unchanged. Otherwise only the file and path are set, and the configuration page follows with the uploaded file's name. |
| WizardSession.Session.SubmitExistingLocation | extensions/csv-datastore-wizard/src/main/java/org/eobjects/datacleaner/monitor/server/wizard/CsvDatastoreWizardSession.java:87-105 | Fails when the lower-cased path ends in neither .csv nor .tsv. Otherwise it fails only when the file exists and is unreadable. On failure the session is unchanged. On success only the file and path are set, and the configuration page follows with the file's name. |
| WizardSession.Session.SubmitConfiguration | extensions/csv-datastore-wizard/src/main/java/org/eobjects/datacleaner/monitor/server/wizard/CsvDatastoreWizardSession.java:119-124 | Stores exactly the configuration and shows the name page with index 3 and the file name carried along. |
| WizardSession.Session.SubmitNameAndDescription | extensions/csv-datastore-wizard/src/main/java/org/eobjects/datacleaner/monitor/server/wizard/CsvDatastoreWizardSession.java:127-131 | Stores exactly the name and the description and ends the wizard. |
| WizardSession.Session.CreateDatastoreElement | extensions/csv-datastore-wizard/src/main/java/org/eobjects/datacleaner/monitor/server/wizard/CsvDatastoreWizardSession.java:137-156 | Builds a new csv-datastore element equal to the rendering of the session's name, description, file path and configuration. |
| WizardSession.FinishedSessionIsComplete | extensions/csv-datastore-wizard/src/main/java/org/eobjects/datacleaner/monitor/server/wizard/CsvDatastoreWizardSession.java:41-45 | In a finished session every field createDatastoreElement reads, except the optional description, has been set. |

## Left out

- core/src/main/java/org/eobjects/datacleaner/actions/PreviewSourceDataActionListener.java is not part of this model. It is user-interface glue over a query engine and a window that are defined elsewhere.
- File-system effects are not modelled. The answers of `exists`, `mkdirs`, `canWrite` and `canRead` are input values. Creating the directory and copying the uploaded file (`FileHelper.copy`) have no effect in the model.
- WizardSession.Session.SubmitUploadLocation: assumes that `getParentFile()` returns a directory and that `FileHelper.copy` succeeds. In the code a null parent, or a copy that throws, aborts the callback before `_file` and `_filepath` are assigned. The model reports success in those cases as soon as the directory checks pass.
- The XML document object model and `DocumentBuilder` are not modelled. The element is a plain tag, attribute map and list of text children; no XML text is produced or escaped.
- `AbstractDatastoreWizardSession`, which the session extends, is not part of this model. Neither are the four page classes it subclasses anonymously for its callbacks: the upload-or-existing page, the location page, the configuration page and the name page. How they derive the path and the `File`, and any checks of their own, are not modelled. The name is taken to be a non-null string.
- The internals of `CsvConfiguration` are not modelled. It is a record of optional settings, and `NOT_A_CHAR` is taken to be the character `\0`, which differs from tab, LF and CR.
- `toLowerCase` is modelled for ASCII only: only A to Z change. Locale-specific case mapping is left out.
- Java's `char` is a UTF-16 code unit; the model uses Dafny's Unicode `char`.
- Integers are unbounded. The 32-bit width of Java's `int` plays no role, because the code does no arithmetic on the header line number.
- `StringUtils.isNullOrEmpty` is taken as "null or the empty string", without trimming.
- `File.getName` is modelled as the part of the path after its last '/'. It assumes a normalised path with '/' as the separator.
- The exceptions are returned as error values; `UserInputError.Message` gives their texts.
- WizardSession.Session.CreateDatastoreElement: requires that the name and the configuration are set, as they are once the wizard has finished (FinishedSessionIsComplete). Calls before that are not modelled. Before the configuration page, the code dereferences a null configuration. Between the configuration page and the name page, it sets the name attribute to null. The model covers neither case.
