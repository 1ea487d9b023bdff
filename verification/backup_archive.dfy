/** The manifest inside a backup archive: printing it and parsing it, at the level of decoded JSON. */
module BackupManifest {
  import opened Wrappers
  import opened Numerals

  /** Decoded JSON as PHP holds it: lists and objects are both ordered tables. */
  datatype Php = Int(n: int) | Text(text: string) | Table(entries: seq<(string, Php)>) | Other

  datatype DatabaseData =
    DatabaseData(driver: string, product: string, serverVersion: string, format: string, path: string)

  datatype FileEntry = FileEntry(path: string, size: int, sha256: string)

  datatype Manifest = Manifest(
    schemaVersion: int,
    createdAt: string,
    applicationVersion: string,
    database: DatabaseData,
    files: seq<FileEntry>)

  const LEGACY_SQLITE := DatabaseData("sqlite", "SQLite", "unknown", "sqlite", "database/database.sqlite")

  // ---------- printing ----------

  function DatabaseToTable(d: DatabaseData): Php {
    Table([
      ("driver", Text(d.driver)), ("product", Text(d.product)), ("server_version", Text(d.serverVersion)),
      ("format", Text(d.format)), ("path", Text(d.path))
    ])
  }

  function FileToTable(f: FileEntry): Php {
    Table([("path", Text(f.path)), ("size", Int(f.size)), ("sha256", Text(f.sha256))])
  }

  function FilesToTable(files: seq<FileEntry>): (r: seq<(string, Php)>)
    ensures |r| == |files| && forall i :: 0 <= i < |r| ==> r[i].1 == FileToTable(files[i])
  {
    seq(|files|, i requires 0 <= i < |files| => (Print(i), FileToTable(files[i])))
  }

  /** `toJson` */
  function ToPhp(m: Manifest): Result<Php, string> {
    if m.schemaVersion == 2 then
      Ok(Table([
        ("schema_version", Int(m.schemaVersion)), ("created_at", Text(m.createdAt)),
        ("application_version", Text(m.applicationVersion)), ("database", DatabaseToTable(m.database)),
        ("files", Table(FilesToTable(m.files)))
      ]))
    else if m.schemaVersion == 1 then
      Ok(Table([
        ("schema_version", Int(m.schemaVersion)), ("created_at", Text(m.createdAt)),
        ("application_version", Text(m.applicationVersion)), ("files", Table(FilesToTable(m.files)))
      ]))
    else Err("The backup manifest schema version is unsupported.")
  }

  // ---------- parsing ----------

  /** The value of a key, null when there is none. */
  function At(entries: seq<(string, Php)>, key: string): Php {
    if entries == [] then Other
    else if entries[0].0 == key then entries[0].1
    else At(entries[1..], key)
  }

  function Keys(entries: seq<(string, Php)>): set<string> {
    set i | 0 <= i < |entries| :: entries[i].0
  }

  /** Keys of a table are distinct, so comparing sorted keys is comparing sets. */
  predicate HasExactKeys(entries: seq<(string, Php)>, expected: set<string>) {
    Keys(entries) == expected
  }

  function ExpectedDatabase(driver: string): Option<(string, string, string)> {
    match driver
    case "sqlite" => Some(("SQLite", "sqlite", "database/database.sqlite"))
    case "mysql" => Some(("MySQL", "sql", "database/database.sql"))
    case "mariadb" => Some(("MariaDB", "sql", "database/database.sql"))
    case _ => None
  }

  predicate HasControlCharacter(s: string) {
    exists i :: 0 <= i < |s| && (s[i] < ' ' || s[i] == '\U{7F}')
  }

  predicate IsHex64(s: string) {
    |s| == 64 && forall i :: 0 <= i < 64 ==> '0' <= s[i] <= '9' || 'a' <= s[i] <= 'f'
  }

  /** `parseDatabase` */
  function ParseDatabase(data: seq<(string, Php)>): Result<DatabaseData, string> {
    var driver, product, version := At(data, "driver"), At(data, "product"), At(data, "server_version");
    var format, path := At(data, "format"), At(data, "path");
    if !HasExactKeys(data, {"driver", "format", "path", "product", "server_version"})
       || !driver.Text? || !product.Text? || !version.Text? || version.text == ""
       || HasControlCharacter(version.text) || !format.Text? || !path.Text? then
      Err("The backup manifest database entry is invalid.")
    else
      var expected := ExpectedDatabase(driver.text);
      if expected.None? || (product.text, format.text, path.text) != expected.value then
        Err("The backup manifest database entry is inconsistent.")
      else Ok(DatabaseData(driver.text, product.text, version.text, format.text, path.text))
  }

  function ParseFile(file: Php): Result<FileEntry, string> {
    if !file.Table? || !HasExactKeys(file.entries, {"path", "sha256", "size"}) then
      Err("A backup manifest file entry is invalid.")
    else
      var path, size, sha256 := At(file.entries, "path"), At(file.entries, "size"), At(file.entries, "sha256");
      if !path.Text? || !size.Int? || size.n < 0 || !sha256.Text? || !IsHex64(sha256.text) then
        Err("A backup manifest file entry is invalid.")
      else Ok(FileEntry(path.text, size.n, sha256.text))
  }

  /** `parseFiles`, from the last entry to the first. */
  function ParseFiles(data: seq<(string, Php)>): Result<seq<FileEntry>, string> {
    if data == [] then Ok([])
    else
      match ParseFiles(data[..|data| - 1])
      case Err(e) => Err(e)
      case Ok(front) =>
        match ParseFile(data[|data| - 1].1)
        case Err(e) => Err(e)
        case Ok(last) => Ok(front + [last])
  }

  /** `fromJson` */
  function FromPhp(data: Php): Result<Manifest, string> {
    if !data.Table? || !At(data.entries, "schema_version").Int? then
      Err("The backup manifest structure is invalid.")
    else
      var schema := At(data.entries, "schema_version").n;
      var createdAt, version := At(data.entries, "created_at"), At(data.entries, "application_version");
      var files, database := At(data.entries, "files"), At(data.entries, "database");
      var expected := if schema == 1 then {"application_version", "created_at", "files", "schema_version"}
                      else {"application_version", "created_at", "database", "files", "schema_version"};
      if (schema != 1 && schema != 2) || !HasExactKeys(data.entries, expected)
         || !createdAt.Text? || createdAt.text == "" || !version.Text? || version.text == "" || !files.Table? then
        Err("The backup manifest structure is invalid.")
      else if schema == 2 && !database.Table? then
        Err("The backup manifest database entry is invalid.")
      else
        match (if schema == 2 then ParseDatabase(database.entries) else Ok(LEGACY_SQLITE))
        case Err(e) => Err(e)
        case Ok(parsed) =>
          match ParseFiles(files.entries)
          case Err(e) => Err(e)
          case Ok(list) => Ok(Manifest(schema, createdAt.text, version.text, parsed, list))
  }

  // ---------- which manifests survive the round trip ----------

  predicate DatabaseOk(d: DatabaseData) {
    && d.serverVersion != "" && !HasControlCharacter(d.serverVersion)
    && ExpectedDatabase(d.driver) == Some((d.product, d.format, d.path))
  }

  predicate FileOk(f: FileEntry) {
    f.size >= 0 && IsHex64(f.sha256)
  }

  predicate HeaderOk(m: Manifest) {
    && m.createdAt != "" && m.applicationVersion != ""
    && ((m.schemaVersion == 1 && m.database == LEGACY_SQLITE) || (m.schemaVersion == 2 && DatabaseOk(m.database)))
  }

  predicate ManifestOk(m: Manifest) {
    HeaderOk(m) && forall f :: f in m.files ==> FileOk(f)
  }

  lemma TableCons(first: (string, Php), rest: seq<(string, Php)>)
    ensures Keys([first] + rest) == Keys(rest) + {first.0}
    ensures forall key :: At([first] + rest, key) == if key == first.0 then first.1 else At(rest, key)
  {
    var all := [first] + rest;
    assert all[0] == first && all[1..] == rest;
    forall k | k in Keys(rest) ensures k in Keys(all) {
      var i :| 0 <= i < |rest| && rest[i].0 == k;
      assert all[i + 1].0 == k;
    }
  }

  lemma FileRoundTrip(f: FileEntry)
    ensures ParseFile(FileToTable(f)) == Ok(f) <==> FileOk(f)
    ensures ParseFile(FileToTable(f)).Ok? ==> ParseFile(FileToTable(f)) == Ok(f)
  {
    var a, b, c := ("path", Text(f.path)), ("size", Int(f.size)), ("sha256", Text(f.sha256));
    assert FileToTable(f).entries == [a] + ([b] + ([c] + []));
    TableCons(c, []);
    TableCons(b, [c] + []);
    TableCons(a, [b] + ([c] + []));
  }

  lemma {:induction false} FilesRoundTrip(files: seq<FileEntry>)
    ensures (forall f :: f in files ==> FileOk(f)) <==> ParseFiles(FilesToTable(files)) == Ok(files)
    ensures ParseFiles(FilesToTable(files)).Ok? ==> ParseFiles(FilesToTable(files)) == Ok(files)
  {
    if files != [] {
      var front, last := files[..|files| - 1], files[|files| - 1];
      FilesRoundTrip(front);
      FileRoundTrip(last);
      assert FilesToTable(files)[..|files| - 1] == FilesToTable(front);
      assert files == front + [last];
    }
  }

  lemma {:induction false} ParsedFilesAreOk(data: seq<(string, Php)>)
    requires ParseFiles(data).Ok?
    ensures forall f :: f in ParseFiles(data).value ==> FileOk(f)
  {
    if data != [] {
      ParsedFilesAreOk(data[..|data| - 1]);
    }
  }

  lemma FourEntries(a: (string, Php), b: (string, Php), c: (string, Php), d: (string, Php))
    requires a.0 != b.0 && a.0 != c.0 && a.0 != d.0 && b.0 != c.0 && b.0 != d.0 && c.0 != d.0
    ensures Keys([a, b, c, d]) == {a.0, b.0, c.0, d.0}
    ensures At([a, b, c, d], a.0) == a.1 && At([a, b, c, d], b.0) == b.1
    ensures At([a, b, c, d], c.0) == c.1 && At([a, b, c, d], d.0) == d.1
  {
    assert [a, b, c, d] == [a] + ([b] + ([c] + ([d] + [])));
    TableCons(d, []);
    TableCons(c, [d] + []);
    TableCons(b, [c] + ([d] + []));
    TableCons(a, [b] + ([c] + ([d] + [])));
  }

  lemma FiveEntries(a: (string, Php), b: (string, Php), c: (string, Php), d: (string, Php), e: (string, Php))
    requires a.0 != b.0 && a.0 != c.0 && a.0 != d.0 && b.0 != c.0 && b.0 != d.0 && c.0 != d.0
    requires e.0 != a.0 && e.0 != b.0 && e.0 != c.0 && e.0 != d.0
    ensures Keys([a, b, c, d, e]) == {a.0, b.0, c.0, d.0, e.0}
    ensures At([a, b, c, d, e], a.0) == a.1 && At([a, b, c, d, e], b.0) == b.1
    ensures At([a, b, c, d, e], c.0) == c.1 && At([a, b, c, d, e], d.0) == d.1 && At([a, b, c, d, e], e.0) == e.1
  {
    FourEntries(b, c, d, e);
    assert [a, b, c, d, e] == [a] + [b, c, d, e];
    TableCons(a, [b, c, d, e]);
  }

  lemma DatabaseTable(d: DatabaseData)
    ensures var e := DatabaseToTable(d).entries;
            && Keys(e) == {"driver", "format", "path", "product", "server_version"}
            && At(e, "driver") == Text(d.driver) && At(e, "product") == Text(d.product)
            && At(e, "server_version") == Text(d.serverVersion) && At(e, "format") == Text(d.format)
            && At(e, "path") == Text(d.path)
  {
    assert "driver"[0] != "format"[0] && "product"[1] != "path"[1];
    FiveEntries(("driver", Text(d.driver)), ("product", Text(d.product)), ("server_version", Text(d.serverVersion)),
                ("format", Text(d.format)), ("path", Text(d.path)));
  }

  lemma DatabaseRoundTrip(d: DatabaseData)
    ensures ParseDatabase(DatabaseToTable(d).entries) == Ok(d) <==> DatabaseOk(d)
    ensures ParseDatabase(DatabaseToTable(d).entries).Ok? ==> ParseDatabase(DatabaseToTable(d).entries) == Ok(d)
  {
    DatabaseTable(d);
  }

  lemma ManifestTable(m: Manifest, e: seq<(string, Php)>)
    requires ToPhp(m) == Ok(Table(e))
    ensures Keys(e) == (if m.schemaVersion == 2
                         then {"application_version", "created_at", "database", "files", "schema_version"}
                        else {"application_version", "created_at", "files", "schema_version"})
    ensures At(e, "schema_version") == Int(m.schemaVersion) && At(e, "created_at") == Text(m.createdAt)
    ensures At(e, "application_version") == Text(m.applicationVersion)
    ensures At(e, "files") == Table(FilesToTable(m.files))
    ensures m.schemaVersion == 2 ==> At(e, "database") == DatabaseToTable(m.database)
  {
    var a, b := ("schema_version", Int(m.schemaVersion)), ("created_at", Text(m.createdAt));
    var c, f := ("application_version", Text(m.applicationVersion)), ("files", Table(FilesToTable(m.files)));
    if m.schemaVersion == 2 {
      FiveEntries(a, b, c, ("database", DatabaseToTable(m.database)), f);
    } else {
      FourEntries(a, b, c, f);
    }
  }

  /** A manifest reads back as itself exactly when its header and entries are well-formed. */
  lemma ManifestRoundTrip(m: Manifest)
    ensures ToPhp(m).Err? <==> m.schemaVersion != 1 && m.schemaVersion != 2
    ensures ManifestOk(m) <==> ToPhp(m).Ok? && FromPhp(ToPhp(m).value) == Ok(m)
    ensures m.schemaVersion == 2 && FromPhp(ToPhp(m).value).Ok? ==> ManifestOk(m)
  {
    if ToPhp(m).Ok? {
      ManifestTable(m, ToPhp(m).value.entries);
      DatabaseRoundTrip(m.database);
      FilesRoundTrip(m.files);
      assert m == Manifest(m.schemaVersion, m.createdAt, m.applicationVersion, m.database, m.files);
    }
  }

  /** Whatever parses is well-formed, so printing it and parsing it again gives the same manifest. */
  lemma ParsedIsStable(data: Php)
    requires FromPhp(data).Ok?
    ensures ManifestOk(FromPhp(data).value)
    ensures ToPhp(FromPhp(data).value).Ok? && FromPhp(ToPhp(FromPhp(data).value).value) == FromPhp(data)
  {
    ParsedFilesAreOk(At(data.entries, "files").entries);
    assert !HasControlCharacter("unknown");
    ManifestRoundTrip(FromPhp(data).value);
  }
}

/** Building an archive from staged files, verifying it, and extracting it. */
module BackupArchive {
  import opened Wrappers
  import opened PhpStrings
  import opened PrivatePaths
  import opened Numerals
  import opened SetFacts
  import opened BackupManifest

  /** The manifest's own file is identified by the JSON it holds. */
  datatype Content = Raw(bytes: string) | Json(value: Php)

  datatype StagedFile = StagedFile(path: Path, content: Content)

  /** Entries by path; `unsupported` stands for a link or another special entry. */
  datatype Archive = Archive(files: map<string, Content>, directories: set<string>, unsupported: bool)

  /** Size and SHA-256 of a content. */
  datatype Fingerprint = Fingerprint(size: nat, sha256: string)

  type Measure = Content -> Fingerprint

  ghost predicate HexHashes(measure: Measure) {
    forall c :: IsHex64(measure(c).sha256)
  }

  // ---------- writing ----------

  /** Path of a staged file relative to the staging directory. */
  function Relative(p: Path): string {
    ForwardSlashes(Join(p.segments))
  }

  function EntryOf(f: StagedFile, measure: Measure): FileEntry {
    FileEntry(Relative(f.path), measure(f.content).size, measure(f.content).sha256)
  }

  function InsertEntry(e: FileEntry, sorted: seq<FileEntry>): (r: seq<FileEntry>)
    ensures multiset(r) == multiset(sorted) + multiset{e}
  {
    if sorted == [] || !Less(sorted[0].path, e.path) then [e] + sorted
    else
      assert sorted == [sorted[0]] + sorted[1..];
      [sorted[0]] + InsertEntry(e, sorted[1..])
  }

  /** The manifest's entries, sorted by path. */
  function Entries(stage: seq<StagedFile>, measure: Measure): (r: seq<FileEntry>)
    ensures |r| == |stage|
  {
    if stage == [] then []
    else
      var rest := Entries(stage[1..], measure);
      var r := InsertEntry(EntryOf(stage[0], measure), rest);
      assert |multiset(r)| == |multiset(rest)| + 1;
      r
  }

  function ManifestOf(stage: seq<StagedFile>, createdAt: string, version: string, database: DatabaseData,
                      measure: Measure): Manifest {
    Manifest(2, createdAt, version, database, Entries(stage, measure))
  }

  /** `addFile` for each file of the staging directory. */
  function Packed(stage: seq<StagedFile>): map<string, Content> {
    if stage == [] then map[]
    else Packed(stage[..|stage| - 1])[Relative(stage[|stage| - 1].path) := stage[|stage| - 1].content]
  }

  function Parents(path: string): set<string> {
    set k | 1 <= k < |Split(path)| :: Join(Split(path)[..k])
  }

  /** An archive lists the directories added to it, and those its files lie in. */
  function CreateArchive(stage: seq<StagedFile>): Archive {
    var files := Packed(stage);
    Archive(files, {"database", "storage", "storage/private"} + set p, d | p in files && d in Parents(p) :: d, false)
  }

  /** Everything `__invoke` does between the snapshot and the verification. */
  function Create(stage: seq<StagedFile>, createdAt: string, version: string, database: DatabaseData, measure: Measure)
    : Result<Archive, string>
  {
    match ToPhp(ManifestOf(stage, createdAt, version, database, measure))
    case Err(e) => Err(e)
    case Ok(json) => Ok(CreateArchive(stage + [StagedFile(Path(["manifest.json"]), Json(json))]))
  }

  // ---------- verifying ----------

  function Paths(files: seq<FileEntry>): (r: seq<string>)
    ensures |r| == |files| && forall i :: 0 <= i < |r| ==> r[i] == files[i].path
  {
    seq(|files|, i requires 0 <= i < |files| => files[i].path)
  }

  function WithPrefix(paths: seq<string>, prefix: string): seq<string> {
    if paths == [] then []
    else (if prefix <= paths[0] then [paths[0]] else []) + WithPrefix(paths[1..], prefix)
  }

  predicate SafePath(path: string, databasePath: string) {
    && (path == databasePath || path == "metadata.json" || "storage/private/" <= path)
    && '\0' !in path && '\\' !in path && !("/" <= path)
    && "" !in Split(path) && "." !in Split(path) && ".." !in Split(path)
  }

  /** `verifyManifestPaths` */
  predicate PathsOk(paths: seq<string>, databasePath: string) {
    && Distinct(paths)
    && WithPrefix(paths, "database/") == [databasePath]
    && "metadata.json" in paths
    && forall p :: p in paths ==> SafePath(p, databasePath)
  }

  function AllowedDirectories(paths: set<string>): set<string> {
    {"database", "storage", "storage/private"} + set p, d | p in paths && d in Parents(p) :: d
  }

  predicate FileMatches(files: map<string, Content>, f: FileEntry, measure: Measure) {
    f.path in files && measure(files[f.path]).size == f.size && measure(files[f.path]).sha256 == f.sha256
  }

  /** `verifiedArchive`: the manifest of an archive that passes every check. */
  function Verify(archive: Archive, measure: Measure): Result<Manifest, string> {
    if archive.unsupported then Err("The backup archive contains an unsupported entry.")
    else if "manifest.json" !in archive.files then Err("The backup archive does not contain manifest.json.")
    else if archive.files["manifest.json"].Raw? then Err("The backup archive could not be verified.")
    else
      match FromPhp(archive.files["manifest.json"].value)
      case Err(e) => Err(e)
      case Ok(m) =>
        if !PathsOk(Paths(m.files), m.database.path) then Err("The backup manifest is incomplete or unsafe.")
        else if multiset(Paths(m.files) + ["manifest.json"]) != multiset(archive.files.Keys) then
          Err("The backup archive content does not match its manifest.")
        else if !(archive.directories <= AllowedDirectories(archive.files.Keys)) then
          Err("Unsafe backup archive directory.")
        else if exists f :: f in m.files && !FileMatches(archive.files, f, measure) then
          Err("Backup file failed verification.")
        else Ok(m)
  }

  // ---------- what a staging directory holds ----------

  /** A file name the file system allows. */
  predicate NameOk(s: string) {
    s != "" && s != "." && s != ".." && '/' !in s && '\0' !in s
  }

  predicate PathNames(p: Path) {
    p.segments != [] && forall i :: 0 <= i < |p.segments| ==> NameOk(p.segments[i])
  }

  predicate InPrivateStorage(p: Path) {
    |p.segments| > 2 && p.segments[0] == "storage" && p.segments[1] == "private"
  }

  function DatabasePath(d: DatabaseData): Path {
    Path(Split(d.path))
  }

  predicate Placed(p: Path, database: DatabaseData) {
    p == DatabasePath(database) || p == Path(["metadata.json"]) || InPrivateStorage(p)
  }

  function StagePaths(stage: seq<StagedFile>): (r: seq<Path>)
    ensures |r| == |stage| && forall i :: 0 <= i < |r| ==> r[i] == stage[i].path
  {
    seq(|stage|, i requires 0 <= i < |stage| => stage[i].path)
  }

  /** One database payload, the metadata, and any files below storage/private, in any order. */
  ghost predicate StageOk(stage: seq<StagedFile>, database: DatabaseData) {
    && ExpectedDatabase(database.driver) == Some((database.product, database.format, database.path))
    && Distinct(StagePaths(stage))
    && DatabasePath(database) in StagePaths(stage) && Path(["metadata.json"]) in StagePaths(stage)
    && forall i :: 0 <= i < |stage| ==> PathNames(stage[i].path) && Placed(stage[i].path, database)
  }

  predicate NoBackslash(p: Path) {
    forall i :: 0 <= i < |p.segments| ==> '\\' !in p.segments[i]
  }

  ghost predicate WellNamed(stage: seq<StagedFile>) {
    forall i :: 0 <= i < |stage| ==> NoBackslash(stage[i].path)
  }

  function Relatives(stage: seq<StagedFile>): (r: seq<string>)
    ensures |r| == |stage| && forall i :: 0 <= i < |r| ==> r[i] == Relative(stage[i].path)
  {
    seq(|stage|, i requires 0 <= i < |stage| => Relative(stage[i].path))
  }

  // ---------- paths ----------

  /** Without backslashes, the printed path gives the segments back. */
  lemma RelativeSplits(p: Path)
    requires PathNames(p) && NoBackslash(p)
    ensures Split(Relative(p)) == p.segments && Relative(p) == Join(p.segments)
  {
    SplitOfJoin(p.segments);
    if '\\' in Join(p.segments) {
      JoinedCharacters(p.segments, '\\');
    }
  }

  lemma DatabasePaths(d: DatabaseData)
    requires ExpectedDatabase(d.driver) == Some((d.product, d.format, d.path))
    ensures d.path == "database/database.sqlite" || d.path == "database/database.sql"
    ensures Join(Split(d.path)) == d.path
  {
    JoinOfSplit(d.path);
  }

  lemma PrivatePathsStart(p: Path)
    requires InPrivateStorage(p)
    ensures "storage/private/" <= Join(p.segments)
  {
    assert p.segments[1..][0] == "private";
    assert Join(p.segments) == "storage" + "/" + ("private" + "/" + Join(p.segments[1..][1..]));
  }

  /** No segment of an archived path is empty or climbs. */
  predicate SafelySplit(path: string) {
    "" !in Split(path) && "." !in Split(path) && ".." !in Split(path)
  }

  lemma NamesHoldNoZero(p: Path)
    requires PathNames(p)
    ensures '\0' !in Relative(p)
  {
    if '\0' in Join(p.segments) {
      JoinedCharacters(p.segments, '\0');
    }
  }

  lemma PlainNamesAreSafe(p: Path)
    requires PathNames(p) && NoBackslash(p)
    ensures SafelySplit(Relative(p))
  {
    RelativeSplits(p);
  }

  lemma SlashesKeepPrefix(prefix: string, s: string)
    requires prefix <= s && '\\' !in prefix
    ensures prefix <= ForwardSlashes(s)
  {
    forall i | 0 <= i < |prefix| ensures ForwardSlashes(s)[i] == prefix[i] {
      assert s[i] == prefix[i] && prefix[i] in prefix;
    }
  }

  lemma StoragePrefixDiffers(s: string)
    requires "storage/private/" <= s
    ensures s[0] == 's'
  {
    assert s[0] == "storage/private/"[0];
  }

  lemma PlacedInStorage(p: Path, d: DatabaseData)
    requires ExpectedDatabase(d.driver) == Some((d.product, d.format, d.path))
    requires PathNames(p) && InPrivateStorage(p)
    ensures "storage/private/" <= Relative(p) && !("database/" <= Relative(p))
    ensures Relative(p) != d.path && Relative(p) != "manifest.json" && !("/" <= Relative(p))
  {
    PrivatePathsStart(p);
    SlashesKeepPrefix("storage/private/", Join(p.segments));
    StoragePrefixDiffers(Relative(p));
    DatabasePaths(d);
  }

  lemma LiteralsArePlain()
    ensures '\\' !in "database/database.sqlite" && '\\' !in "database/database.sql" && '\\' !in "metadata.json"
  {
  }

  lemma OutsideHasNoBackslash(p: Path, d: DatabaseData)
    requires ExpectedDatabase(d.driver) == Some((d.product, d.format, d.path))
    requires p == DatabasePath(d) || p == Path(["metadata.json"])
    ensures NoBackslash(p)
  {
    LiteralsArePlain();
    DatabasePaths(d);
    if p == DatabasePath(d) {
      SplitCharacters(d.path, '\\');
    }
  }

  lemma PlacedOutside(p: Path, d: DatabaseData)
    requires ExpectedDatabase(d.driver) == Some((d.product, d.format, d.path))
    requires PathNames(p) && (p == DatabasePath(d) || p == Path(["metadata.json"]))
    ensures Relative(p) == if p == DatabasePath(d) then d.path else "metadata.json"
    ensures "database/" <= Relative(p) <==> Relative(p) == d.path
    ensures Relative(p) != "manifest.json" && !("/" <= Relative(p))
  {
    OutsideHasNoBackslash(p, d);
    RelativeSplits(p);
    DatabasePaths(d);
    OutsideNames(d);
  }

  lemma OutsideNames(d: DatabaseData)
    requires d.path == "database/database.sqlite" || d.path == "database/database.sql"
    ensures "database/" <= d.path && !("database/" <= "metadata.json") && d.path != "metadata.json"
    ensures d.path != "manifest.json" && !("/" <= d.path)
    ensures "metadata.json" != "manifest.json" && !("/" <= "metadata.json")
  {
    assert d.path[0] == 'd' && "metadata.json"[0] == 'm' && "metadata.json"[1] == 'e' && "manifest.json"[1] == 'a';
  }

  lemma PlacedIsNotManifest(p: Path, d: DatabaseData)
    requires ExpectedDatabase(d.driver) == Some((d.product, d.format, d.path))
    requires PathNames(p) && Placed(p, d)
    ensures Relative(p) != "manifest.json"
  {
    if InPrivateStorage(p) {
      PlacedInStorage(p, d);
    } else {
      PlacedOutside(p, d);
    }
  }

  /** Whatever a file below the staging directory is called, only its segments can make the archived path unsafe. */
  lemma PlacedIsSafe(p: Path, d: DatabaseData)
    requires ExpectedDatabase(d.driver) == Some((d.product, d.format, d.path))
    requires PathNames(p) && Placed(p, d)
    ensures SafePath(Relative(p), d.path) <==> SafelySplit(Relative(p))
    ensures "database/" <= Relative(p) <==> Relative(p) == d.path
  {
    NamesHoldNoZero(p);
    if InPrivateStorage(p) {
      PlacedInStorage(p, d);
    } else {
      PlacedOutside(p, d);
    }
  }

  // ---------- the sorted entries ----------

  ghost predicate SortedByPath(entries: seq<FileEntry>) {
    forall i, j :: 0 <= i < j < |entries| ==> !Less(entries[j].path, entries[i].path)
  }

  lemma OneLater<T>(s: seq<T>, e: T, n: nat)
    requires s != [] && n < |s|
    ensures [s[0]] + (s[1..][..n] + [e] + s[1..][n..]) == s[..n + 1] + [e] + s[n + 1..]
  {
  }

  lemma {:induction false} InsertEntryPlace(e: FileEntry, sorted: seq<FileEntry>) returns (k: nat)
    ensures k <= |sorted| && InsertEntry(e, sorted) == sorted[..k] + [e] + sorted[k..]
    ensures forall i :: 0 <= i < k ==> Less(sorted[i].path, e.path)
    ensures k < |sorted| ==> !Less(sorted[k].path, e.path)
  {
    if sorted == [] || !Less(sorted[0].path, e.path) {
      k := 0;
    } else {
      var rest := sorted[1..];
      var n := InsertEntryPlace(e, rest);
      k := n + 1;
      OneLater(sorted, e, n);
      forall i | 0 <= i < k ensures Less(sorted[i].path, e.path) {
        if i > 0 {
          assert rest[i - 1] == sorted[i];
        }
      }
    }
  }

  lemma InsertEntryPaths(e: FileEntry, sorted: seq<FileEntry>)
    ensures multiset(Paths(InsertEntry(e, sorted))) == multiset(Paths(sorted)) + multiset{e.path}
  {
    var k := InsertEntryPlace(e, sorted);
    PathsInserted(e, sorted, k);
  }

  lemma PathsInserted(e: FileEntry, entries: seq<FileEntry>, k: nat)
    requires k <= |entries|
    ensures multiset(Paths(entries[..k] + [e] + entries[k..])) == multiset(Paths(entries)) + multiset{e.path}
  {
    var paths := Paths(entries);
    assert Paths(entries[..k] + [e] + entries[k..]) == paths[..k] + [e.path] + paths[k..];
    assert paths == paths[..k] + paths[k..];
  }

  lemma InsertEntryKeepsSorted(e: FileEntry, sorted: seq<FileEntry>)
    requires SortedByPath(sorted)
    ensures SortedByPath(InsertEntry(e, sorted))
  {
    var k := InsertEntryPlace(e, sorted);
    forall i | 0 <= i < |sorted| ensures i < k ==> !Less(e.path, sorted[i].path) {
      LessIsStrict(sorted[i].path, e.path, sorted[i].path);
    }
    forall i | 0 <= i < |sorted| ensures k <= i ==> !Less(sorted[i].path, e.path) {
      if k < i && Less(sorted[i].path, e.path) {
        LessIsStrict(sorted[i].path, sorted[k].path, e.path);
        LessIsStrict(sorted[k].path, sorted[i].path, e.path);
      }
    }
  }

  /** The manifest lists the staged paths, each as often as it is staged, sorted by byte order. */
  lemma {:induction false} EntryPaths(stage: seq<StagedFile>, measure: Measure)
    ensures multiset(Paths(Entries(stage, measure))) == multiset(Relatives(stage))
    ensures SortedByPath(Entries(stage, measure))
  {
    if stage == [] {
      assert Paths(Entries(stage, measure)) == Relatives(stage);
    } else {
      EntryPaths(stage[1..], measure);
      InsertEntryPaths(EntryOf(stage[0], measure), Entries(stage[1..], measure));
      InsertEntryKeepsSorted(EntryOf(stage[0], measure), Entries(stage[1..], measure));
      RelativesCons(stage);
    }
  }

  lemma RelativesCons(stage: seq<StagedFile>)
    requires stage != []
    ensures multiset(Relatives(stage)) == multiset(Relatives(stage[1..])) + multiset{Relative(stage[0].path)}
  {
    assert Relatives(stage) == [Relative(stage[0].path)] + Relatives(stage[1..]);
  }

  lemma EntriesCons(stage: seq<StagedFile>, measure: Measure, e: FileEntry)
    requires stage != []
    ensures e in Entries(stage, measure) <==> e in Entries(stage[1..], measure) || e == EntryOf(stage[0], measure)
  {
    var all, rest, first := Entries(stage, measure), Entries(stage[1..], measure), EntryOf(stage[0], measure);
    assert multiset(all) == multiset(rest) + multiset{first};
    assert e in all <==> e in multiset(all);
    assert e in rest <==> e in multiset(rest);
  }

  ghost predicate ComesFrom(e: FileEntry, stage: seq<StagedFile>, measure: Measure) {
    exists i :: 0 <= i < |stage| && e == EntryOf(stage[i], measure)
  }

  lemma ComesFromCons(e: FileEntry, stage: seq<StagedFile>, measure: Measure)
    requires stage != []
    ensures ComesFrom(e, stage, measure) <==> ComesFrom(e, stage[1..], measure) || e == EntryOf(stage[0], measure)
  {
    assert forall i :: 0 < i < |stage| ==> stage[i] == stage[1..][i - 1];
    if ComesFrom(e, stage[1..], measure) {
      var i :| 0 <= i < |stage| - 1 && e == EntryOf(stage[1..][i], measure);
      assert e == EntryOf(stage[i + 1], measure);
    }
  }

  lemma {:induction false} EntryComesFromFile(stage: seq<StagedFile>, measure: Measure, e: FileEntry)
    ensures e in Entries(stage, measure) <==> ComesFrom(e, stage, measure)
  {
    if stage != [] {
      EntriesCons(stage, measure, e);
      ComesFromCons(e, stage, measure);
      EntryComesFromFile(stage[1..], measure, e);
    }
  }

  lemma EntriesComeFromFiles(stage: seq<StagedFile>, measure: Measure)
    ensures forall e :: e in Entries(stage, measure) <==>
              exists i :: 0 <= i < |stage| && e == EntryOf(stage[i], measure)
  {
    forall e ensures e in Entries(stage, measure) <==> ComesFrom(e, stage, measure) {
      EntryComesFromFile(stage, measure, e);
    }
  }

  lemma {:induction false} DistinctByCount<T>(s: seq<T>)
    ensures Distinct(s) <==> multiset(s) == multiset(Elements(s))
  {
    if s != [] {
      var front, last := s[..|s| - 1], s[|s| - 1];
      assert s == front + [last];
      DistinctByCount(front);
      ElementsAppend(front, last);
      if Distinct(s) {
        assert last !in front;
        assert multiset(Elements(s)) == multiset(Elements(front)) + multiset{last};
      } else if multiset(s) == multiset(Elements(s)) {
        var i, j :| 0 <= i < j < |s| && s[i] == s[j];
        CountTwice(s, i, j);
      }
    }
  }

  lemma CountTwice<T>(s: seq<T>, i: nat, j: nat)
    requires i < j < |s| && s[i] == s[j]
    ensures multiset(s)[s[i]] >= 2
  {
    assert s == s[..i] + [s[i]] + s[i + 1..j] + [s[j]] + s[j + 1..];
  }

  // ---------- a created archive is accepted ----------

  lemma RelativesDistinct(stage: seq<StagedFile>, database: DatabaseData)
    requires StageOk(stage, database) && WellNamed(stage)
    ensures Distinct(Relatives(stage))
  {
    var paths := StagePaths(stage);
    forall i, j | 0 <= i < j < |stage| ensures Relatives(stage)[i] != Relatives(stage)[j] {
      RelativeSplits(stage[i].path);
      RelativeSplits(stage[j].path);
      assert paths[i] != paths[j];
    }
  }

  lemma SameMultisetSameElements<T>(a: seq<T>, b: seq<T>)
    requires multiset(a) == multiset(b)
    ensures Elements(a) == Elements(b) && (Distinct(a) <==> Distinct(b))
    ensures forall x :: x in a <==> x in b
  {
    forall x ensures x in a <==> x in b {
      assert x in a <==> x in multiset(a);
      assert x in b <==> x in multiset(b);
    }
    forall x ensures x in Elements(a) <==> x in Elements(b) {
      assert x in Elements(a) <==> x in a;
      assert x in Elements(b) <==> x in b;
    }
    DistinctByCount(a);
    DistinctByCount(b);
  }

  lemma {:induction false} OnlyOneWithPrefix(paths: seq<string>, prefix: string, x: string)
    requires Distinct(paths) && forall p :: p in paths ==> (prefix <= p <==> p == x)
    ensures WithPrefix(paths, prefix) == if x in paths then [x] else []
  {
    if paths != [] {
      assert paths == [paths[0]] + paths[1..];
      assert forall p :: p in paths <==> p == paths[0] || p in paths[1..];
      assert paths[0] !in paths[1..];
      OnlyOneWithPrefix(paths[1..], prefix, x);
    }
  }

  /** Archived paths are distinct, and none has an empty or climbing segment. */
  ghost predicate SafelyNamed(stage: seq<StagedFile>) {
    && Distinct(Relatives(stage))
    && forall i :: 0 <= i < |stage| ==> SafelySplit(Relative(stage[i].path))
  }

  lemma WellNamedIsSafelyNamed(stage: seq<StagedFile>, database: DatabaseData)
    requires StageOk(stage, database) && WellNamed(stage)
    ensures SafelyNamed(stage)
  {
    RelativesDistinct(stage, database);
    forall i | 0 <= i < |stage| ensures SafelySplit(Relative(stage[i].path)) {
      PlainNamesAreSafe(stage[i].path);
    }
  }

  lemma StagedPathsAre(stage: seq<StagedFile>, database: DatabaseData, measure: Measure, i: nat)
    requires StageOk(stage, database) && i < |stage|
    ensures Relatives(stage)[i] in Paths(Entries(stage, measure))
    ensures SafePath(Relatives(stage)[i], database.path) <==> SafelySplit(Relatives(stage)[i])
    ensures "database/" <= Relatives(stage)[i] <==> Relatives(stage)[i] == database.path
  {
    EntryPaths(stage, measure);
    SameMultisetSameElements(Paths(Entries(stage, measure)), Relatives(stage));
    PlacedIsSafe(stage[i].path, database);
    assert Relatives(stage)[i] in Relatives(stage);
  }

  lemma SafelyNamedPathsAreOk(stage: seq<StagedFile>, database: DatabaseData, measure: Measure)
    requires StageOk(stage, database) && SafelyNamed(stage)
    ensures PathsOk(Paths(Entries(stage, measure)), database.path)
  {
    var paths, relatives := Paths(Entries(stage, measure)), Relatives(stage);
    EntryPaths(stage, measure);
    SameMultisetSameElements(paths, relatives);
    forall p | p in paths ensures SafePath(p, database.path) && ("database/" <= p <==> p == database.path) {
      var i :| 0 <= i < |stage| && relatives[i] == p;
      StagedPathsAre(stage, database, measure, i);
    }
    DatabaseAndMetadataAreListed(stage, database);
    OnlyOneWithPrefix(paths, "database/", database.path);
  }

  lemma StagedPathsAreOkExactly(stage: seq<StagedFile>, database: DatabaseData, measure: Measure)
    requires StageOk(stage, database)
    ensures PathsOk(Paths(Entries(stage, measure)), database.path) <==> SafelyNamed(stage)
  {
    if SafelyNamed(stage) {
      SafelyNamedPathsAreOk(stage, database, measure);
    } else {
      EntryPaths(stage, measure);
      SameMultisetSameElements(Paths(Entries(stage, measure)), Relatives(stage));
      forall i | 0 <= i < |stage|
        ensures Relatives(stage)[i] in Paths(Entries(stage, measure))
        ensures SafePath(Relatives(stage)[i], database.path) <==> SafelySplit(Relatives(stage)[i])
      {
        StagedPathsAre(stage, database, measure, i);
      }
    }
  }

  lemma DatabaseAndMetadataAreListed(stage: seq<StagedFile>, database: DatabaseData)
    requires StageOk(stage, database)
    ensures database.path in Relatives(stage) && "metadata.json" in Relatives(stage)
  {
    var i :| 0 <= i < |stage| && StagePaths(stage)[i] == DatabasePath(database);
    var j :| 0 <= j < |stage| && StagePaths(stage)[j] == Path(["metadata.json"]);
    PlacedOutside(stage[i].path, database);
    PlacedOutside(stage[j].path, database);
    DatabasePaths(database);
    assert DatabasePath(database) != Path(["metadata.json"]) by {
      assert Join(Path(["metadata.json"]).segments) == "metadata.json";
    }
    assert Relatives(stage)[i] == database.path && Relatives(stage)[j] == "metadata.json";
  }

  lemma RelativesOneMore(stage: seq<StagedFile>)
    requires stage != []
    ensures Relatives(stage) == Relatives(stage[..|stage| - 1]) + [Relative(stage[|stage| - 1].path)]
  {
  }

  lemma {:induction false} PackedKeys(stage: seq<StagedFile>)
    ensures Packed(stage).Keys == Elements(Relatives(stage))
  {
    if stage != [] {
      var front, last := stage[..|stage| - 1], stage[|stage| - 1];
      PackedKeys(front);
      RelativesOneMore(stage);
      ElementsAppend(Relatives(front), Relative(last.path));
    }
  }

  /** With distinct paths, no file of the archive is overwritten by a later one. */
  lemma {:induction false} PackedAt(stage: seq<StagedFile>, i: nat)
    requires Distinct(Relatives(stage)) && i < |stage|
    ensures Relatives(stage)[i] in Packed(stage) && Packed(stage)[Relatives(stage)[i]] == stage[i].content
    decreases |stage|
  {
    var n := |stage| - 1;
    RelativesOneMore(stage);
    if i < n {
      assert Relatives(stage)[i] != Relatives(stage)[n];
      assert Relatives(stage[..n])[i] == Relatives(stage)[i];
      DistinctFront(Relatives(stage), n);
      assert Relatives(stage[..n]) == Relatives(stage)[..n];
      PackedAt(stage[..n], i);
    }
  }

  lemma DistinctFront<T>(s: seq<T>, n: nat)
    requires Distinct(s) && n <= |s|
    ensures Distinct(s[..n])
  {
  }

  function WithManifest(stage: seq<StagedFile>, json: Php): seq<StagedFile> {
    stage + [StagedFile(Path(["manifest.json"]), Json(json))]
  }

  lemma ManifestRelative()
    ensures Relative(Path(["manifest.json"])) == "manifest.json"
  {
  }

  lemma DistinctOneMore<T>(s: seq<T>, x: T)
    requires Distinct(s) && forall i :: 0 <= i < |s| ==> s[i] != x
    ensures Distinct(s + [x])
  {
  }

  lemma WithManifestAdds(stage: seq<StagedFile>, json: Php)
    ensures Relatives(WithManifest(stage, json)) == Relatives(stage) + ["manifest.json"]
  {
    ManifestRelative();
  }

  lemma WithManifestRelatives(stage: seq<StagedFile>, database: DatabaseData, json: Php)
    requires StageOk(stage, database) && Distinct(Relatives(stage))
    ensures Relatives(WithManifest(stage, json)) == Relatives(stage) + ["manifest.json"]
    ensures Distinct(Relatives(WithManifest(stage, json)))
  {
    WithManifestAdds(stage, json);
    forall i | 0 <= i < |stage| ensures Relatives(stage)[i] != "manifest.json" {
      PlacedIsNotManifest(stage[i].path, database);
    }
    DistinctOneMore(Relatives(stage), "manifest.json");
  }

  lemma ManifestIsPacked(stage: seq<StagedFile>, json: Php)
    ensures "manifest.json" in Packed(WithManifest(stage, json))
    ensures Packed(WithManifest(stage, json))["manifest.json"] == Json(json)
  {
    ManifestRelative();
    var all := WithManifest(stage, json);
    assert all[|all| - 1] == StagedFile(Path(["manifest.json"]), Json(json));
  }

  lemma ArchiveHolds(stage: seq<StagedFile>, database: DatabaseData, json: Php)
    requires StageOk(stage, database) && Distinct(Relatives(stage))
    ensures var files := Packed(WithManifest(stage, json));
            && multiset(files.Keys) == multiset(Relatives(stage) + ["manifest.json"])
            && forall i :: 0 <= i < |stage| ==>
                 Relatives(stage)[i] in files && files[Relatives(stage)[i]] == stage[i].content
  {
    var all, n := WithManifest(stage, json), |stage|;
    WithManifestRelatives(stage, database, json);
    DistinctByCount(Relatives(all));
    PackedKeys(all);
    forall i | 0 <= i < n
      ensures Relatives(stage)[i] in Packed(all) && Packed(all)[Relatives(stage)[i]] == stage[i].content
    {
      assert all[i] == stage[i] && Relatives(all)[i] == Relatives(stage)[i];
      PackedAt(all, i);
    }
  }

  lemma StagedFilesMatch(stage: seq<StagedFile>, files: map<string, Content>, measure: Measure)
    requires forall i :: 0 <= i < |stage| ==>
              Relatives(stage)[i] in files && files[Relatives(stage)[i]] == stage[i].content
    ensures forall f :: f in Entries(stage, measure) ==> FileMatches(files, f, measure)
  {
    EntriesComeFromFiles(stage, measure);
    forall f | f in Entries(stage, measure) ensures FileMatches(files, f, measure) {
      var i :| 0 <= i < |stage| && f == EntryOf(stage[i], measure);
      assert Relatives(stage)[i] in files;
    }
  }

  lemma StagedManifestIsOk(stage: seq<StagedFile>, createdAt: string, version: string, database: DatabaseData,
                           measure: Measure)
    requires HexHashes(measure)
    ensures var m := ManifestOf(stage, createdAt, version, database, measure); ManifestOk(m) <==> HeaderOk(m)
  {
    EntriesComeFromFiles(stage, measure);
    forall f | f in Entries(stage, measure) ensures FileOk(f) {
      var i :| 0 <= i < |stage| && f == EntryOf(stage[i], measure);
      assert IsHex64(measure(stage[i].content).sha256);
    }
  }

  lemma VerifyAccepts(archive: Archive, m: Manifest, json: Php, measure: Measure)
    requires !archive.unsupported && "manifest.json" in archive.files && archive.files["manifest.json"] == Json(json)
    requires FromPhp(json) == Ok(m) && PathsOk(Paths(m.files), m.database.path)
    requires multiset(Paths(m.files) + ["manifest.json"]) == multiset(archive.files.Keys)
    requires archive.directories <= AllowedDirectories(archive.files.Keys)
    requires forall f :: f in m.files ==> FileMatches(archive.files, f, measure)
    ensures Verify(archive, measure) == Ok(m)
  {
  }

  lemma VerifyRefuses(archive: Archive, json: Php, measure: Measure)
    requires "manifest.json" in archive.files && archive.files["manifest.json"] == Json(json)
    requires FromPhp(json).Ok? ==> !PathsOk(Paths(FromPhp(json).value.files), FromPhp(json).value.database.path)
    ensures Verify(archive, measure).Err?
  {
  }

  lemma SafelyNamedIsAccepted(stage: seq<StagedFile>, m: Manifest, database: DatabaseData, json: Php, measure: Measure)
    requires StageOk(stage, database) && SafelyNamed(stage) && m.database == database
    requires m.files == Entries(stage, measure)
    requires FromPhp(json) == Ok(m)
    ensures Verify(CreateArchive(WithManifest(stage, json)), measure) == Ok(m)
  {
    var archive := CreateArchive(WithManifest(stage, json));
    ArchiveHolds(stage, database, json);
    ManifestIsPacked(stage, json);
    StagedPathsAreOkExactly(stage, database, measure);
    StagedFilesMatch(stage, archive.files, measure);
    EntryPaths(stage, measure);
    assert multiset(Paths(m.files) + ["manifest.json"]) == multiset(Relatives(stage) + ["manifest.json"]);
    VerifyAccepts(archive, m, json, measure);
  }

  /**
    An archive built from a staging directory verifies, exactly when no header
    field is empty or malformed and its paths are safely named once backslashes
    have become separators.
   */
  lemma CreatedArchiveIsAccepted(stage: seq<StagedFile>, createdAt: string, version: string, database: DatabaseData,
                                 measure: Measure)
    requires StageOk(stage, database) && HexHashes(measure)
    ensures var m := ManifestOf(stage, createdAt, version, database, measure);
            var created := Create(stage, createdAt, version, database, measure);
            && created.Ok?
            && (HeaderOk(m) && SafelyNamed(stage) ==> Verify(created.value, measure) == Ok(m))
            && (!HeaderOk(m) || !SafelyNamed(stage) ==> Verify(created.value, measure).Err?)
  {
    var m := ManifestOf(stage, createdAt, version, database, measure);
    ManifestRoundTrip(m);
    var json := ToPhp(m).value;
    StagedManifestIsOk(stage, createdAt, version, database, measure);
    if HeaderOk(m) && SafelyNamed(stage) {
      SafelyNamedIsAccepted(stage, m, database, json, measure);
    } else {
      ManifestIsPacked(stage, json);
      StagedPathsAreOkExactly(stage, database, measure);
      VerifyRefuses(CreateArchive(WithManifest(stage, json)), json, measure);
    }
  }

  // ---------- what verification establishes ----------

  /** Among these contents, equal hashes mean equal contents. */
  ghost predicate NoCollision(measure: Measure, contents: set<Content>) {
    forall x, y :: x in contents && y in contents && measure(x).sha256 == measure(y).sha256 ==> x == y
  }

  lemma AcceptedMeans(archive: Archive, m: Manifest, measure: Measure)
    requires Verify(archive, measure) == Ok(m)
    ensures PathsOk(Paths(m.files), m.database.path)
    ensures forall f :: f in m.files ==> FileMatches(archive.files, f, measure)
    ensures multiset(Paths(m.files) + ["manifest.json"]) == multiset(archive.files.Keys)
  {
  }

  /** A file of the archive has the size and the hash its manifest entry says. */
  predicate HasSizeAndHash(archive: Archive, f: FileEntry, measure: Measure) {
    && f.path in archive.files
    && measure(archive.files[f.path]).size == f.size
    && measure(archive.files[f.path]).sha256 == f.sha256
  }

  /** Every directory is one of the three fixed ones or lies above a file. */
  predicate DirectoriesOk(archive: Archive) {
    forall d :: d in archive.directories ==>
      || d == "database" || d == "storage" || d == "storage/private"
      || exists f :: f in archive.files && d in Parents(f)
  }

  /** The archive holds the manifest and the files it lists, each of them once, and nothing else. */
  ghost predicate HoldsExactly(archive: Archive, m: Manifest) {
    && Distinct(Paths(m.files) + ["manifest.json"])
    && forall p :: p in archive.files <==> p == "manifest.json" || p in Paths(m.files)
  }

  lemma HoldsExactlyCounts(archive: Archive, m: Manifest)
    ensures HoldsExactly(archive, m) <==>
              multiset(Paths(m.files) + ["manifest.json"]) == multiset(archive.files.Keys)
  {
    var paths := Paths(m.files) + ["manifest.json"];
    DistinctByCount(paths);
    if multiset(paths) == multiset(archive.files.Keys) {
      ListedKeys(Paths(m.files), "manifest.json", archive.files.Keys);
    }
    forall p ensures p in Elements(paths) <==> p == "manifest.json" || p in Paths(m.files) {
      assert p in Elements(paths) <==> p in paths;
      assert paths == Paths(m.files) + ["manifest.json"];
    }
  }

  /**
    Verification accepts exactly the archives of regular entries whose manifest
    parses, whose files are those the manifest lists, with their sizes and hashes,
    under safe paths, and whose directories hold them.
   */
  lemma VerifiesExactly(archive: Archive, m: Manifest, measure: Measure)
    ensures Verify(archive, measure) == Ok(m) <==>
              && !archive.unsupported
              && "manifest.json" in archive.files && archive.files["manifest.json"].Json?
              && FromPhp(archive.files["manifest.json"].value) == Ok(m)
              && PathsOk(Paths(m.files), m.database.path)
              && HoldsExactly(archive, m) && DirectoriesOk(archive)
              && forall f :: f in m.files ==> HasSizeAndHash(archive, f, measure)
  {
    VerifyMeans(archive, m, measure);
    HoldsExactlyCounts(archive, m);
    DirectoriesAre(archive);
  }

  lemma DirectoriesAre(archive: Archive)
    ensures DirectoriesOk(archive) <==> archive.directories <= AllowedDirectories(archive.files.Keys)
  {
  }

  lemma VerifyMeans(archive: Archive, m: Manifest, measure: Measure)
    ensures Verify(archive, measure) == Ok(m) <==>
              && !archive.unsupported
              && "manifest.json" in archive.files && archive.files["manifest.json"].Json?
              && FromPhp(archive.files["manifest.json"].value) == Ok(m)
              && PathsOk(Paths(m.files), m.database.path)
              && multiset(Paths(m.files) + ["manifest.json"]) == multiset(archive.files.Keys)
              && archive.directories <= AllowedDirectories(archive.files.Keys)
              && forall f :: f in m.files ==> FileMatches(archive.files, f, measure)
  {
  }

  lemma ListedKeys(paths: seq<string>, last: string, keys: set<string>)
    requires multiset(paths + [last]) == multiset(keys)
    ensures forall k :: k in keys <==> k in paths || k == last
  {
    forall k ensures k in keys <==> k in paths || k == last {
      assert k in multiset(paths + [last]) <==> k in paths + [last];
      assert k in multiset(keys) <==> k in keys;
    }
  }

  lemma MatchingFilesAreEqual(a: map<string, Content>, b: map<string, Content>, f: FileEntry, measure: Measure)
    requires FileMatches(a, f, measure) && FileMatches(b, f, measure) && NoCollision(measure, a.Values + b.Values)
    ensures a[f.path] == b[f.path]
  {
    assert a[f.path] in a.Values && b[f.path] in b.Values;
  }

  /** Two accepted archives with the same manifest hold the same files. */
  lemma ManifestDeterminesTheFiles(a: Archive, b: Archive, m: Manifest, measure: Measure)
    requires Verify(a, measure) == Ok(m) && Verify(b, measure) == Ok(m)
    requires NoCollision(measure, a.files.Values + b.files.Values)
    ensures a.files.Keys == b.files.Keys
    ensures forall f :: f in m.files ==> f.path in a.files && a.files[f.path] == b.files[f.path]
  {
    AcceptedMeans(a, m, measure);
    AcceptedMeans(b, m, measure);
    ListedKeys(Paths(m.files), "manifest.json", a.files.Keys);
    ListedKeys(Paths(m.files), "manifest.json", b.files.Keys);
    forall f | f in m.files ensures f.path in a.files && a.files[f.path] == b.files[f.path] {
      MatchingFilesAreEqual(a.files, b.files, f, measure);
    }
  }

  lemma PlainName(name: string)
    requires NameOk(name)
    ensures Split(name) == [name]
  {
    var whole := [name];
    assert forall i :: 0 <= i < |whole| ==> '/' !in whole[i];
    SplitOfJoin(whole);
  }

  lemma SafeSegments(segments: seq<string>)
    requires segments != [] && "" !in segments && "." !in segments && ".." !in segments
    requires forall i :: 0 <= i < |segments| ==> '/' !in segments[i]
    ensures StaysInside(Path(segments))
  {
    assert forall i :: 0 <= i < |segments| ==> segments[i] in segments;
  }

  lemma SafePathsStayInside(path: string, databasePath: string)
    requires SafePath(path, databasePath) || path == "manifest.json"
    ensures StaysInside(Path(Split(path)))
  {
    if path == "manifest.json" {
      PlainName(path);
    }
    SafeSegments(Split(path));
  }

  /** No accepted archive has an entry that could leave the extraction directory. */
  lemma AcceptedPathsStayInside(archive: Archive, measure: Measure, path: string)
    requires Verify(archive, measure).Ok? && path in archive.files
    ensures StaysInside(Path(Split(path)))
  {
    var m := Verify(archive, measure).value;
    AcceptedMeans(archive, m, measure);
    ListedKeys(Paths(m.files), "manifest.json", archive.files.Keys);
    SafePathsStayInside(path, m.database.path);
  }

  // ---------- extraction gives the staged files back ----------

  /** `extractTo` into an empty directory: some of the archive's files, whatever was written into them. */
  predicate ExtractedFrom(archive: Archive, written: map<string, Content>) {
    written.Keys <= archive.files.Keys
  }

  /** What `extractVerified` accepts. */
  predicate ExtractionOk(archive: Archive, written: map<string, Content>, measure: Measure) {
    && Verify(archive, measure).Ok?
    && forall f :: f in Verify(archive, measure).value.files ==> FileMatches(written, f, measure)
  }

  lemma MatchingIsStaged(stage: seq<StagedFile>, measure: Measure, written: map<string, Content>, i: nat)
    requires i < |stage| && forall f :: f in Entries(stage, measure) ==> FileMatches(written, f, measure)
    requires NoCollision(measure, written.Values + Packed(stage).Values) && Distinct(Relatives(stage))
    ensures var p := Relatives(stage)[i];
            p in written && p in Packed(stage) && written[p] == Packed(stage)[p]
  {
    EntriesComeFromFiles(stage, measure);
    var f := EntryOf(stage[i], measure);
    PackedAt(stage, i);
    assert FileMatches(written, f, measure);
    assert written[f.path] in written.Values && Packed(stage)[f.path] in Packed(stage).Values;
  }

  lemma CreatedKeys(stage: seq<StagedFile>, json: Php)
    ensures CreateArchive(WithManifest(stage, json)).files.Keys == Elements(Relatives(stage)) + {"manifest.json"}
  {
    PackedKeys(WithManifest(stage, json));
    ManifestRelative();
    assert Relatives(WithManifest(stage, json)) == Relatives(stage) + ["manifest.json"];
    ElementsAppend(Relatives(stage), "manifest.json");
  }

  /** Beside the manifest, an accepted extraction is exactly what was staged: every file, and nothing else. */
  lemma ExtractedIsStaged(stage: seq<StagedFile>, database: DatabaseData, measure: Measure,
                          written: map<string, Content>)
    requires StageOk(stage, database) && SafelyNamed(stage)
    requires written.Keys <= Elements(Relatives(stage)) + {"manifest.json"}
    requires forall f :: f in Entries(stage, measure) ==> FileMatches(written, f, measure)
    requires NoCollision(measure, written.Values + Packed(stage).Values)
    ensures written - {"manifest.json"} == Packed(stage)
  {
    PackedKeys(stage);
    StagedPart(stage, database, measure, written);
    WithoutTheRest(written, Packed(stage), "manifest.json");
  }

  lemma WithoutTheRest<K, V>(a: map<K, V>, b: map<K, V>, k: K)
    requires k !in b && a.Keys <= b.Keys + {k} && forall p :: p in b ==> p in a && a[p] == b[p]
    ensures a - {k} == b
  {
  }

  lemma StagedPart(stage: seq<StagedFile>, database: DatabaseData, measure: Measure, written: map<string, Content>)
    requires StageOk(stage, database) && SafelyNamed(stage)
    requires forall f :: f in Entries(stage, measure) ==> FileMatches(written, f, measure)
    requires NoCollision(measure, written.Values + Packed(stage).Values)
    ensures forall p :: p in Packed(stage) ==> p in written && written[p] == Packed(stage)[p] && p != "manifest.json"
  {
    PackedKeys(stage);
    forall p | p in Packed(stage) ensures p in written && written[p] == Packed(stage)[p] && p != "manifest.json" {
      assert p in Elements(Relatives(stage));
      var i :| 0 <= i < |stage| && Relatives(stage)[i] == p;
      MatchingIsStaged(stage, measure, written, i);
      PlacedIsNotManifest(stage[i].path, database);
    }
  }

  /**
    Create, verify, extract: the archive of a safely named stage verifies, its own
    files are an extraction that is accepted, and whatever extraction is accepted
    gives the stage back.
   */
  lemma BackupRoundTrip(stage: seq<StagedFile>, createdAt: string, version: string, database: DatabaseData,
                        measure: Measure, written: map<string, Content>)
    requires StageOk(stage, database) && SafelyNamed(stage) && HexHashes(measure)
    requires HeaderOk(ManifestOf(stage, createdAt, version, database, measure))
    ensures var created := Create(stage, createdAt, version, database, measure);
            && created.Ok?
            && ExtractionOk(created.value, created.value.files, measure)
            && (ExtractedFrom(created.value, written) && ExtractionOk(created.value, written, measure)
                && NoCollision(measure, written.Values + Packed(stage).Values) ==>
                  written - {"manifest.json"} == Packed(stage))
  {
    CreatedArchiveIsAccepted(stage, createdAt, version, database, measure);
    var m := ManifestOf(stage, createdAt, version, database, measure);
    var created := Create(stage, createdAt, version, database, measure).value;
    AcceptedMeans(created, m, measure);
    CreatedKeys(stage, ToPhp(m).value);
    if ExtractedFrom(created, written) && ExtractionOk(created, written, measure)
       && NoCollision(measure, written.Values + Packed(stage).Values) {
      ExtractedIsStaged(stage, database, measure, written);
    }
  }

  /** Paths as an extraction creates them. */
  function ExtractedPaths(stage: seq<StagedFile>): set<Path> {
    set i | 0 <= i < |stage| :: Path(Split(Relative(stage[i].path)))
  }

  /** Extraction recreates the staged paths exactly when no name holds a backslash. */
  lemma NamesSurviveExactlyWithoutBackslash(stage: seq<StagedFile>)
    requires forall i :: 0 <= i < |stage| ==> PathNames(stage[i].path)
    ensures ExtractedPaths(stage) == Elements(StagePaths(stage)) <==> WellNamed(stage)
  {
    if WellNamed(stage) {
      forall i | 0 <= i < |stage| ensures Path(Split(Relative(stage[i].path))) == StagePaths(stage)[i] {
        RelativeSplits(stage[i].path);
      }
    } else {
      var i :| 0 <= i < |stage| && !NoBackslash(stage[i].path);
      assert stage[i].path == StagePaths(stage)[i];
      forall p | p in ExtractedPaths(stage) ensures NoBackslash(p) {
        var j :| 0 <= j < |stage| && p == Path(Split(Relative(stage[j].path)));
        SplitCharacters(Relative(stage[j].path), '\\');
      }
    }
  }

  lemma {:induction false} SplitCharacters(s: string, c: char)
    requires c !in s
    ensures forall i :: 0 <= i < |Split(s)| ==> c !in Split(s)[i]
  {
    if s != "" {
      assert s == [s[0]] + s[1..];
      SplitCharacters(s[1..], c);
    }
  }

  /** A backslash is archived as a separator: such a tree and the nested one give the same archive. */
  lemma {:induction false} BackslashIsArchivedAsSeparator(a: seq<StagedFile>, b: seq<StagedFile>, measure: Measure)
    requires |a| == |b| && forall i :: 0 <= i < |a| ==>
               Relative(a[i].path) == Relative(b[i].path) && a[i].content == b[i].content
    ensures Entries(a, measure) == Entries(b, measure)
    ensures Packed(a) == Packed(b)
    decreases |a|
  {
    if a != [] {
      SameEntries(a, b, measure);
      BackslashIsArchivedAsSeparator(a[..|a| - 1], b[..|b| - 1], measure);
    }
  }

  lemma {:induction false} SameEntries(a: seq<StagedFile>, b: seq<StagedFile>, measure: Measure)
    requires |a| == |b| && forall i :: 0 <= i < |a| ==>
               Relative(a[i].path) == Relative(b[i].path) && a[i].content == b[i].content
    ensures Entries(a, measure) == Entries(b, measure)
  {
    if a != [] {
      assert forall i :: 0 <= i < |a| - 1 ==> a[1..][i] == a[i + 1] && b[1..][i] == b[i + 1];
      SameEntries(a[1..], b[1..], measure);
      assert EntryOf(a[0], measure) == EntryOf(b[0], measure);
    }
  }

  // ---------- the checking loops ----------

  function ParentsUpTo(segments: seq<string>, k: nat): set<string>
    requires k <= |segments|
  {
    if k == 0 then {} else ParentsUpTo(segments, k - 1) + {Join(segments[..k])}
  }

  lemma {:induction false} ParentsUpToMembers(segments: seq<string>, k: nat)
    requires k <= |segments|
    ensures ParentsUpTo(segments, k) == set j | 1 <= j <= k :: Join(segments[..j])
  {
    if k > 0 {
      ParentsUpToMembers(segments, k - 1);
    }
  }

  lemma ParentsAre(file: string)
    ensures Parents(file) == ParentsUpTo(Split(file), |Split(file)| - 1)
  {
    var segments := Split(file);
    ParentsUpToMembers(segments, |segments| - 1);
    forall d ensures d in Parents(file) <==> d in ParentsUpTo(segments, |segments| - 1) {
    }
  }

  /** The inner loop of `verifyArchiveDirectories`: the directories above one file. */
  method AllowParents(file: string, allowed: set<string>) returns (more: set<string>)
    requires "" !in Split(file)
    ensures more == allowed + Parents(file)
  {
    var segments := Split(file);
    var path := "";
    more := allowed;
    for k := 0 to |segments| - 1
      invariant path == Join(segments[..k]) && (path == "" <==> k == 0)
      invariant more == allowed + ParentsUpTo(segments, k)
    {
      assert segments[k] in segments;
      assert segments[..k + 1] == segments[..k] + [segments[k]];
      if k > 0 {
        JoinOneMore(segments[..k], segments[k]);
      }
      path := if path == "" then segments[k] else path + "/" + segments[k];
      more := more + {path};
    }
    ParentsAre(file);
  }

  /** `verifyArchiveDirectories` */
  method VerifyArchiveDirectories(directories: set<string>, files: set<string>) returns (ok: bool)
    requires forall f :: f in files ==> "" !in Split(f)
    ensures ok <==> directories <= AllowedDirectories(files)
  {
    var allowed := {"database", "storage", "storage/private"};
    var rest := files;
    while rest != {}
      invariant rest <= files
      invariant allowed == {"database", "storage", "storage/private"} +
                             set p, d | p in files - rest && d in Parents(p) :: d
      decreases rest
    {
      var file :| file in rest;
      allowed := AllowParents(file, allowed);
      rest := rest - {file};
    }
    assert files - rest == files;
    ok := true;
    var todo := directories;
    while todo != {}
      invariant todo <= directories
      invariant ok <==> directories - todo <= allowed
      decreases todo
    {
      var directory :| directory in todo;
      if directory !in allowed {
        ok := false;
      }
      todo := todo - {directory};
    }
    assert directories - todo == directories;
  }

  /** The loop over the manifest's files, on the archive or on what was extracted. */
  method VerifyFiles(list: seq<FileEntry>, files: map<string, Content>, measure: Measure) returns (ok: bool)
    ensures ok <==> forall f :: f in list ==> FileMatches(files, f, measure)
  {
    for n := 0 to |list|
      invariant forall i :: 0 <= i < n ==> FileMatches(files, list[i], measure)
    {
      if !FileMatches(files, list[n], measure) {
        return false;
      }
    }
    return true;
  }

  /** `verifyManifestPaths` */
  method VerifyManifestPaths(paths: seq<string>, databasePath: string) returns (ok: bool)
    ensures ok <==> PathsOk(paths, databasePath)
  {
    if !Distinct(paths) || WithPrefix(paths, "database/") != [databasePath] || "metadata.json" !in paths {
      return false;
    }
    for n := 0 to |paths|
      invariant forall i :: 0 <= i < n ==> SafePath(paths[i], databasePath)
    {
      if !SafePath(paths[n], databasePath) {
        return false;
      }
    }
    return true;
  }

  /** `verifiedArchive` */
  method VerifiedArchive(archive: Archive, measure: Measure) returns (r: Result<Manifest, string>)
    ensures r == Verify(archive, measure)
  {
    if archive.unsupported {
      return Err("The backup archive contains an unsupported entry.");
    }
    if "manifest.json" !in archive.files {
      return Err("The backup archive does not contain manifest.json.");
    }
    if archive.files["manifest.json"].Raw? {
      return Err("The backup archive could not be verified.");
    }
    r := FromPhp(archive.files["manifest.json"].value);
    if r.Err? {
      return;
    }
    var m := r.value;
    var pathsOk := VerifyManifestPaths(Paths(m.files), m.database.path);
    if !pathsOk {
      return Err("The backup manifest is incomplete or unsafe.");
    }
    if multiset(Paths(m.files) + ["manifest.json"]) != multiset(archive.files.Keys) {
      return Err("The backup archive content does not match its manifest.");
    }
    ListedKeys(Paths(m.files), "manifest.json", archive.files.Keys);
    forall f | f in archive.files.Keys ensures "" !in Split(f) {
      SafePathsStayInside(f, m.database.path);
    }
    var directoriesOk := VerifyArchiveDirectories(archive.directories, archive.files.Keys);
    if !directoriesOk {
      return Err("Unsafe backup archive directory.");
    }
    var filesOk := VerifyFiles(m.files, archive.files, measure);
    if !filesOk {
      return Err("Backup file failed verification.");
    }
  }

  /** `extractVerified`: `written` is what the extraction left in the destination, if it did not fail. */
  method ExtractVerified(archive: Archive, destinationEmpty: bool, written: Option<map<string, Content>>,
                         measure: Measure)
    returns (r: Result<Manifest, string>)
    ensures r.Ok? ==> r == Verify(archive, measure)
    ensures r.Ok? <==> destinationEmpty && written.Some? && ExtractionOk(archive, written.value, measure)
  {
    r := VerifiedArchive(archive, measure);
    if r.Err? {
      return;
    }
    if !destinationEmpty {
      return Err("Backup extraction directory must be empty.");
    }
    if written.None? {
      return Err("The verified backup archive could not be extracted.");
    }
    var ok := VerifyFiles(r.value.files, written.value, measure);
    if !ok {
      return Err("Extracted backup file failed verification.");
    }
  }

  // ---------- the writing loops ----------

  datatype SourceFile = SourceFile(path: Path, content: Content, isLink: bool)

  /** `ltrim(…, '/\\')` */
  function TrimSlashes(s: string): string {
    if s != "" && (s[0] == '/' || s[0] == '\\') then TrimSlashes(s[1..]) else s
  }

  function StagedCopy(f: SourceFile): StagedFile {
    StagedFile(Path(["storage", "private"] + Split(TrimSlashes(Join(f.path.segments)))), f.content)
  }

  lemma {:induction false} TrimSlashesShortens(s: string)
    ensures |TrimSlashes(s)| <= |s|
    ensures TrimSlashes(s) == s <==> s == "" || (s[0] != '/' && s[0] != '\\')
  {
    if s != "" {
      TrimSlashesShortens(s[1..]);
    }
  }

  /** A file is staged under its own path exactly when that does not begin with a backslash. */
  lemma StagedUnderItsPathExactly(f: SourceFile)
    requires PathNames(f.path)
    ensures StagedCopy(f).path == Path(["storage", "private"] + f.path.segments) <==> f.path.segments[0][0] != '\\'
  {
    var segments, whole := f.path.segments, Join(f.path.segments);
    var staged, kept := StagedCopy(f).path.segments, ["storage", "private"] + segments;
    TrimSlashesShortens(whole);
    SplitOfJoin(segments);
    assert whole != "" && whole[0] == segments[0][0];
    if staged == kept {
      assert Split(TrimSlashes(whole)) == staged[2..] == kept[2..] == Split(whole);
      SplitShorter(TrimSlashes(whole), whole);
    }
  }

  /** Texts that split alike are alike. */
  lemma SplitShorter(s: string, t: string)
    requires Split(s) == Split(t)
    ensures s == t
  {
    JoinOfSplit(s);
    JoinOfSplit(t);
  }

  lemma {:induction false} JoinOfSplit(s: string)
    ensures Join(Split(s)) == s
  {
    if s != "" {
      var rest := Split(s[1..]);
      JoinOfSplit(s[1..]);
      if s[0] == '/' {
        assert ([""] + rest)[1..] == rest;
      } else {
        var first := [s[0]] + rest[0];
        assert ([first] + rest[1..])[1..] == rest[1..];
        assert Join([first] + rest[1..]) == [s[0]] + Join(rest);
      }
    }
  }

  /**
    `copyPrivateStorage`: the copy of every file of the private storage, in order;
    of two copies at one path the later stays.  It fails exactly for a link or a
    file that cannot be copied, and says which of the two came first.
   */
  method CopyPrivateStorage(source: Option<seq<SourceFile>>, uncopyable: set<Path>)
    returns (r: Result<seq<StagedFile>, string>)
    ensures source.None? ==> r == Ok([])
    ensures source.Some? ==>
              (r.Ok? <==> forall i :: 0 <= i < |source.value| ==>
                            !source.value[i].isLink && source.value[i].path !in uncopyable)
    ensures source.Some? && r.Ok? ==>
              |r.value| == |source.value| &&
              forall i :: 0 <= i < |r.value| ==> r.value[i] == StagedCopy(source.value[i])
    ensures r.Err? ==>
              exists i :: 0 <= i < |source.value| &&
                (forall k :: 0 <= k < i ==> !source.value[k].isLink && source.value[k].path !in uncopyable) &&
                if source.value[i].isLink then r.error == LINK
                else source.value[i].path in uncopyable && r.error == UNSTAGED
  {
    if source.None? {
      return Ok([]);
    }
    var staged: seq<StagedFile> := [];
    for n := 0 to |source.value|
      invariant |staged| == n
      invariant forall i :: 0 <= i < n ==> !source.value[i].isLink && source.value[i].path !in uncopyable
      invariant forall i :: 0 <= i < n ==> staged[i] == StagedCopy(source.value[i])
    {
      if source.value[n].isLink {
        return Err(LINK);
      }
      if source.value[n].path in uncopyable {
        return Err(UNSTAGED);
      }
      staged := staged + [StagedCopy(source.value[n])];
    }
    return Ok(staged);
  }

  const LINK := "Private storage contains an unsupported symbolic link."
  const UNSTAGED := "Private storage file could not be staged."

  /** The loop of `createArchive`. */
  method AddFiles(stage: seq<StagedFile>) returns (files: map<string, Content>)
    ensures files == Packed(stage)
  {
    files := map[];
    for n := 0 to |stage|
      invariant files == Packed(stage[..n])
    {
      assert stage[..n + 1][..n] == stage[..n];
      files := files[Relative(stage[n].path) := stage[n].content];
    }
    assert stage[..|stage|] == stage;
  }
}
