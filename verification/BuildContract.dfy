/** The build protocol's request: its strict decoder, and the source paths it lets through. */
module BuildContract {
  datatype Json =
    | Null
    | Truth(b: bool)
    | Number(n: int)
    | Text(s: string)
    | List(items: seq<Json>)
    | Record(fields: map<string, Json>)

  datatype Code = InvalidRequest | LimitExceeded

  datatype Result<+T> = Ok(value: T) | Err(code: Code)

  datatype SourceFile = SourceFile(path: string, text: string)

  datatype Request = Request(effectId: string, id: string, mode: string, files: seq<SourceFile>)

  const VERSION := 1
  const IDENTIFIER_MAX := 200
  const PLUGIN_ID_MAX := 64
  const PATH_MAX := 256
  const FILE_TEXT_MAX := 524288
  const FILES_MAX := 64
  const SOURCE_MAX := 1048576
  const MODES := {"check", "build"}

  // ---- the decoder's parts -------------------------------------------------------------

  function Field(o: map<string, Json>, key: string): Json {
    if key in o then o[key] else Null
  }

  function Bounded(input: Json, maximum: nat): Result<string> {
    if !input.Text? || input.s == "" then Err(InvalidRequest)
    else if |input.s| > maximum then Err(LimitExceeded)
    else Ok(input.s)
  }

  function BoundedText(input: Json, maximum: nat): Result<string> {
    if !input.Text? then Err(InvalidRequest) else if |input.s| > maximum then Err(LimitExceeded) else Ok(input.s)
  }

  /** A string at its slashes. */
  function Segments(s: string): (r: seq<string>)
    ensures r != []
  {
    if s == "" then [""]
    else
      var rest := Segments(s[1..]);
      if s[0] == '/' then [""] + rest else [[s[0]] + rest[0]] + rest[1..]
  }

  predicate Plain(c: char) {
    c != '\\' && '\U{001F}' < c && c != '\U{007F}'
  }

  predicate AllPlain(s: string) {
    forall i :: 0 <= i < |s| ==> Plain(s[i])
  }

  predicate DoubleSlash(s: string) {
    exists i :: 0 <= i < |s| - 1 && s[i] == '/' && s[i + 1] == '/'
  }

  predicate Dotted(s: string) {
    exists i :: 0 <= i < |Segments(s)| && (Segments(s)[i] == "." || Segments(s)[i] == "..")
  }

  function DecodePath(input: Json): Result<string> {
    var bounded := Bounded(input, PATH_MAX);
    if bounded.Err? then bounded
    else
      var v := bounded.value;
      if v[0] == '/' || DoubleSlash(v) || v[|v| - 1] == '/' || !AllPlain(v) || Dotted(v) then Err(InvalidRequest)
      else Ok(v)
  }

  function TotalText(files: seq<SourceFile>): nat {
    if files == [] then 0 else TotalText(files[..|files| - 1]) + |files[|files| - 1].text|
  }

  predicate Holds(files: seq<SourceFile>, path: string) {
    exists i :: 0 <= i < |files| && files[i].path == path
  }

  /** One more entry after those decoded: its shape, its path, a new one, its text, and the
      whole still within bounds. */
  function DecodeFile(before: seq<SourceFile>, entry: Json): Result<SourceFile> {
    if !entry.Record? || !(entry.fields.Keys <= {"path", "text"}) then Err(InvalidRequest)
    else
      var path := DecodePath(Field(entry.fields, "path"));
      if path.Err? then Err(path.code)
      else if Holds(before, path.value) then Err(InvalidRequest)
      else
        var text := BoundedText(Field(entry.fields, "text"), FILE_TEXT_MAX);
        if text.Err? then Err(text.code)
        else if TotalText(before) + |text.value| > SOURCE_MAX then Err(LimitExceeded)
        else Ok(SourceFile(path.value, text.value))
  }

  /** The first `n` entries, or the fault of the first bad one. */
  function FilesOf(entries: seq<Json>, n: nat): Result<seq<SourceFile>>
    requires n <= |entries|
  {
    if n == 0 then Ok([])
    else
      var before := FilesOf(entries, n - 1);
      if before.Err? then before
      else
        var file := DecodeFile(before.value, entries[n - 1]);
        if file.Err? then Err(file.code) else Ok(before.value + [file.value])
  }

  function Files(input: Json): Result<seq<SourceFile>> {
    if !input.List? || input.items == [] then Err(InvalidRequest)
    else if |input.items| > FILES_MAX then Err(LimitExceeded)
    else FilesOf(input.items, |input.items|)
  }

  lemma FilesNext(entries: seq<Json>, n: nat, files: seq<SourceFile>)
    requires n < |entries| && FilesOf(entries, n) == Ok(files)
    ensures var file := DecodeFile(files, entries[n]);
      FilesOf(entries, n + 1) == if file.Err? then Err(file.code) else Ok(files + [file.value])
  {
  }

  lemma {:induction false} FaultStays(entries: seq<Json>, m: nat, n: nat)
    requires m <= n <= |entries| && FilesOf(entries, m).Err?
    ensures FilesOf(entries, n) == FilesOf(entries, m)
  {
    if m < n {
      FaultStays(entries, m, n - 1);
    }
  }

  ghost predicate SeenAre(seen: set<string>, files: seq<SourceFile>) {
    forall p :: p in seen <==> Holds(files, p)
  }

  lemma SeenMore(seen: set<string>, files: seq<SourceFile>, f: SourceFile)
    requires SeenAre(seen, files)
    ensures SeenAre(seen + {f.path}, files + [f])
    ensures TotalText(files + [f]) == TotalText(files) + |f.text|
  {
    HoldsMore(files, f);
  }

  method DecodeEntry(ghost before: seq<SourceFile>, seen: set<string>, total: nat,
                     entry: Json) returns (r: Result<SourceFile>)
    requires total == TotalText(before) && SeenAre(seen, before)
    ensures r == DecodeFile(before, entry)
  {
    if !entry.Record? { return Err(InvalidRequest); }
    if !(entry.fields.Keys <= {"path", "text"}) { return Err(InvalidRequest); }
    var path := DecodePath(Field(entry.fields, "path"));
    if path.Err? { return Err(path.code); }
    if path.value in seen { return Err(InvalidRequest); }
    var text := BoundedText(Field(entry.fields, "text"), FILE_TEXT_MAX);
    if text.Err? { return Err(text.code); }
    if total + |text.value| > SOURCE_MAX { return Err(LimitExceeded); }
    r := Ok(SourceFile(path.value, text.value));
  }

  method DecodeFiles(input: Json) returns (r: Result<seq<SourceFile>>)
    ensures r == Files(input)
  {
    if !input.List? || input.items == [] { return Err(InvalidRequest); }
    if |input.items| > FILES_MAX { return Err(LimitExceeded); }
    var entries := input.items;
    var seen: set<string>, total, files := {}, 0, [];
    for i := 0 to |entries|
      invariant FilesOf(entries, i) == Ok(files)
      invariant total == TotalText(files) && SeenAre(seen, files)
    {
      FilesNext(entries, i, files);
      var file := DecodeEntry(files, seen, total, entries[i]);
      if file.Err? {
        FaultStays(entries, i + 1, |entries|);
        return Err(file.code);
      }
      SeenMore(seen, files, file.value);
      seen := seen + {file.value.path};
      total := total + |file.value.text|;
      files := files + [file.value];
    }
    r := Ok(files);
  }

  lemma HoldsMore(files: seq<SourceFile>, f: SourceFile)
    ensures forall p :: Holds(files + [f], p) <==> Holds(files, p) || p == f.path
    ensures TotalText(files + [f]) == TotalText(files) + |f.text|
  {
    var more := files + [f];
    assert more[..|files|] == files;
    forall p
      ensures Holds(more, p) <==> Holds(files, p) || p == f.path
    {
      if Holds(files, p) {
        var i :| 0 <= i < |files| && files[i].path == p;
        assert more[i].path == p;
      }
      assert more[|files|] == f;
    }
  }

  // ---- source paths --------------------------------------------------------------------

  predicate Nameable(segment: string) {
    segment != "" && segment != "." && segment != ".."
  }

  predicate AllNameable(segments: seq<string>) {
    forall i :: 0 <= i < |segments| ==> Nameable(segments[i])
  }

  predicate EmptyFrom(segments: seq<string>, from: nat) {
    exists i :: from <= i < |segments| && segments[i] == ""
  }

  lemma DoubleSlashStep(s: string)
    requires |s| > 1
    ensures DoubleSlash(s) <==> (s[0] == '/' && s[1] == '/') || DoubleSlash(s[1..])
  {
    var t := s[1..];
    if DoubleSlash(t) {
      var i :| 0 <= i < |t| - 1 && t[i] == '/' && t[i + 1] == '/';
      assert s[i + 1] == '/' && s[i + 2] == '/';
    }
    if DoubleSlash(s) {
      var i :| 0 <= i < |s| - 1 && s[i] == '/' && s[i + 1] == '/';
      assert i > 0 ==> t[i - 1] == '/' && t[i - 1 + 1] == '/';
    }
  }

  lemma EmptyStep(head: string, rest: seq<string>)
    ensures EmptyFrom([head] + rest, 1) <==> EmptyFrom(rest, 0)
    ensures rest != [] ==> (EmptyFrom(rest, 0) <==> rest[0] == "" || EmptyFrom(rest, 1))
  {
    var all := [head] + rest;
    if EmptyFrom(rest, 0) {
      var i :| 0 <= i < |rest| && rest[i] == "";
      assert all[i + 1] == "";
    }
    if EmptyFrom(all, 1) {
      var i :| 1 <= i < |all| && all[i] == "";
      assert rest[i - 1] == "";
    }
  }

  lemma EmptyTail(head: string, rest: seq<string>)
    requires rest != []
    ensures EmptyFrom([head] + rest[1..], 1) <==> EmptyFrom(rest, 1)
  {
    var all := [head] + rest[1..];
    assert forall i :: 1 <= i < |rest| ==> all[i] == rest[i];
  }

  /** The first segment is empty exactly when a slash begins the string, a later one exactly
      when a slash ends it or doubles. */
  lemma {:induction false} EmptySegments(s: string)
    requires s != ""
    ensures Segments(s)[0] == "" <==> s[0] == '/'
    ensures EmptyFrom(Segments(s), 1) <==> s[|s| - 1] == '/' || DoubleSlash(s)
  {
    var rest := Segments(s[1..]);
    if |s| == 1 {
      assert rest == [""];
      EmptyStep("", rest);
      EmptyTail([s[0]], rest);
      assert !DoubleSlash(s);
      assert rest[0] == "";
      assert !EmptyFrom(rest, 1);
    } else {
      EmptySegments(s[1..]);
      DoubleSlashStep(s);
      if s[0] == '/' {
        EmptyStep("", rest);
      } else {
        EmptyTail([s[0]] + rest[0], rest);
      }
    }
  }

  lemma NamingSegments(v: string)
    ensures AllNameable(Segments(v)) <==> Segments(v)[0] != "" && !EmptyFrom(Segments(v), 1) && !Dotted(v)
  {
    var segments := Segments(v);
    assert AllNameable(segments) ==> Nameable(segments[0]);
    if segments[0] != "" && !EmptyFrom(segments, 1) && !Dotted(v) {
      forall i | 0 <= i < |segments|
        ensures Nameable(segments[i])
      {
      }
    }
  }

  /** What is let through: one to 256 plain characters whose segments all name something. */
  lemma {:induction false} PathAccepted(v: string)
    ensures DecodePath(Text(v)) == Ok(v) <==> 1 <= |v| <= PATH_MAX && AllPlain(v) && AllNameable(Segments(v))
    ensures DecodePath(Text(v)).Ok? ==> DecodePath(Text(v)) == Ok(v)
    ensures DecodePath(Text(v)) == Err(LimitExceeded) <==> |v| > PATH_MAX
  {
    if v != "" {
      EmptySegments(v);
      NamingSegments(v);
    }
  }

  function Joined(segments: seq<string>): string
    requires segments != []
  {
    if |segments| == 1 then segments[0] else segments[0] + "/" + Joined(segments[1..])
  }

  lemma {:induction false} SegmentsJoin(s: string)
    ensures Joined(Segments(s)) == s
    ensures forall i :: 0 <= i < |Segments(s)| ==> '/' !in Segments(s)[i]
  {
    if s != "" {
      SegmentsJoin(s[1..]);
      var all, rest := Segments(s), Segments(s[1..]);
      if s[0] == '/' {
        assert all[1..] == rest;
        assert s == "" + "/" + s[1..];
      } else {
        assert all[1..] == rest[1..];
        assert s == [s[0]] + s[1..];
        if |rest| > 1 {
          assert [s[0]] + (rest[0] + "/" + Joined(rest[1..])) == ([s[0]] + rest[0]) + "/" + Joined(rest[1..]);
        }
      }
    }
  }

  /** Walking a path down from a directory: a dot stays, two dots go up, a name goes in. */
  function Walked(directory: seq<string>, segments: seq<string>): seq<string>
    decreases |segments|
  {
    if segments == [] then directory
    else
      var next := if segments[0] == "" || segments[0] == "." then directory
        else if segments[0] == ".." then (if directory == [] then [] else directory[..|directory| - 1])
        else directory + [segments[0]];
      Walked(next, segments[1..])
  }

  lemma {:induction false} WalkedInside(directory: seq<string>, segments: seq<string>)
    requires AllNameable(segments)
    ensures Walked(directory, segments) == directory + segments
    decreases |segments|
  {
    if segments == [] {
      assert directory + segments == directory;
    } else {
      assert Nameable(segments[0]);
      WalkedInside(directory + [segments[0]], segments[1..]);
      assert directory + [segments[0]] + segments[1..] == directory + segments;
    }
  }

  /** A path let through lands strictly inside the directory it is resolved in, and two of
      them land in one place only when they are the same. */
  lemma PathsStayInside(directory: seq<string>, v: string, w: string)
    requires DecodePath(Text(v)).Ok? && DecodePath(Text(w)).Ok?
    ensures directory < Walked(directory, Segments(v))
    ensures Walked(directory, Segments(v)) == Walked(directory, Segments(w)) ==> v == w
  {
    PathAccepted(v);
    PathAccepted(w);
    WalkedInside(directory, Segments(v));
    WalkedInside(directory, Segments(w));
    SegmentsJoin(v);
    SegmentsJoin(w);
    assert (directory + Segments(v))[|directory|..] == Segments(v);
    assert (directory + Segments(w))[|directory|..] == Segments(w);
  }

  // ---- the files -----------------------------------------------------------------------

  predicate FileFine(f: SourceFile) {
    DecodePath(Text(f.path)) == Ok(f.path) && |f.text| <= FILE_TEXT_MAX
  }

  /** What the service may be posted. */
  predicate FilesFine(files: seq<SourceFile>) {
    && 1 <= |files| <= FILES_MAX
    && (forall i :: 0 <= i < |files| ==> FileFine(files[i]))
    && PathsDiffer(files)
    && TotalText(files) <= SOURCE_MAX
  }

  function EncodeFile(f: SourceFile): Json {
    Record(map["path" := Text(f.path), "text" := Text(f.text)])
  }

  function EncodeFiles(files: seq<SourceFile>): Json {
    List(seq(|files|, i requires 0 <= i < |files| => EncodeFile(files[i])))
  }

  lemma FileReads(before: seq<SourceFile>, entry: Json, f: SourceFile)
    ensures DecodeFile(before, entry) == Ok(f) <==>
      entry == EncodeFile(f) && FileFine(f) && !Holds(before, f.path) && TotalText(before) + |f.text| <= SOURCE_MAX
  {
    if DecodeFile(before, entry) == Ok(f) {
      assert Field(entry.fields, "path") == Text(f.path) && Field(entry.fields, "text") == Text(f.text);
      assert entry.fields == map["path" := Text(f.path), "text" := Text(f.text)];
    }
    if entry == EncodeFile(f) {
      assert entry.fields.Keys == {"path", "text"};
    }
  }

  predicate EachEncoded(entries: seq<Json>, files: seq<SourceFile>)
    requires |files| <= |entries|
  {
    forall i :: 0 <= i < |files| ==> entries[i] == EncodeFile(files[i]) && FileFine(files[i])
  }

  predicate PathsDiffer(files: seq<SourceFile>) {
    forall i, j :: 0 <= i < j < |files| ==> files[i].path != files[j].path
  }

  /** `files` are what the first `n` entries encode, each fine, no path twice, within the total. */
  predicate Encodes(entries: seq<Json>, n: nat, files: seq<SourceFile>)
    requires n <= |entries|
  {
    |files| == n && EachEncoded(entries, files) && PathsDiffer(files) && TotalText(files) <= SOURCE_MAX
  }

  lemma EachEncodedMore(entries: seq<Json>, before: seq<SourceFile>, last: SourceFile)
    requires |before| < |entries|
    ensures EachEncoded(entries, before + [last]) <==>
      EachEncoded(entries, before) && entries[|before|] == EncodeFile(last) && FileFine(last)
  {
    var files := before + [last];
    assert files[|before|] == last && forall i :: 0 <= i < |before| ==> files[i] == before[i];
  }

  lemma PathsDifferMore(before: seq<SourceFile>, last: SourceFile)
    ensures PathsDiffer(before + [last]) <==> PathsDiffer(before) && !Holds(before, last.path)
  {
    var files := before + [last];
    assert files[|before|] == last && forall i :: 0 <= i < |before| ==> files[i] == before[i];
    if Holds(before, last.path) {
      var i :| 0 <= i < |before| && before[i].path == last.path;
      assert files[i].path == files[|before|].path;
    }
  }

  lemma EncodesOneMore(entries: seq<Json>, before: seq<SourceFile>, last: SourceFile)
    requires |before| < |entries|
    ensures Encodes(entries, |before| + 1, before + [last]) <==>
      && Encodes(entries, |before|, before)
      && entries[|before|] == EncodeFile(last) && FileFine(last) && !Holds(before, last.path)
      && TotalText(before) + |last.text| <= SOURCE_MAX
  {
    HoldsMore(before, last);
    EachEncodedMore(entries, before, last);
    PathsDifferMore(before, last);
  }

  lemma FilesOneMore(entries: seq<Json>, before: seq<SourceFile>, last: SourceFile)
    requires |before| < |entries|
    requires forall b :: FilesOf(entries, |before|) == Ok(b) ==> |b| == |before|
    ensures FilesOf(entries, |before| + 1) == Ok(before + [last]) <==>
      FilesOf(entries, |before|) == Ok(before) && DecodeFile(before, entries[|before|]) == Ok(last)
  {
    var n := |before|;
    if FilesOf(entries, n + 1) == Ok(before + [last]) {
      var b := FilesOf(entries, n).value;
      var f := DecodeFile(b, entries[n]).value;
      assert b + [f] == before + [last];
      assert b == (b + [f])[..n] && before == (before + [last])[..n] && f == (b + [f])[n];
    }
  }

  lemma {:induction false} FilesLength(entries: seq<Json>, n: nat)
    requires n <= |entries| && FilesOf(entries, n).Ok?
    ensures |FilesOf(entries, n).value| == n
  {
    if n > 0 {
      FilesLength(entries, n - 1);
    }
  }

  /** `FilesRead` for one entry more. */
  lemma FilesReadMore(entries: seq<Json>, before: seq<SourceFile>, last: SourceFile)
    requires |before| < |entries|
    requires FilesOf(entries, |before|) == Ok(before) <==> Encodes(entries, |before|, before)
    requires forall b :: FilesOf(entries, |before|) == Ok(b) ==> |b| == |before|
    ensures FilesOf(entries, |before| + 1) == Ok(before + [last]) <==> Encodes(entries, |before| + 1, before + [last])
  {
    FileReads(before, entries[|before|], last);
    EncodesOneMore(entries, before, last);
    FilesOneMore(entries, before, last);
  }

  lemma {:induction false} FilesRead(entries: seq<Json>, n: nat, files: seq<SourceFile>)
    requires n <= |entries|
    ensures FilesOf(entries, n) == Ok(files) <==> Encodes(entries, n, files)
  {
    if FilesOf(entries, n).Ok? {
      FilesLength(entries, n);
    }
    if n > 0 && |files| == n {
      var before, last := files[..n - 1], files[n - 1];
      assert files == before + [last];
      if FilesOf(entries, n - 1).Ok? {
        FilesLength(entries, n - 1);
      }
      FilesRead(entries, n - 1, before);
      FilesReadMore(entries, before, last);
    }
  }

  /** What is accepted is exactly the encoding of files within bounds, with no path twice. */
  lemma FilesAccepted(input: Json, files: seq<SourceFile>)
    ensures Files(input) == Ok(files) <==> input == EncodeFiles(files) && FilesFine(files)
  {
    if input.List? {
      FilesRead(input.items, |input.items|, files);
      if Files(input) == Ok(files) {
        assert input.items == EncodeFiles(files).items;
      }
      if input == EncodeFiles(files) {
        assert |input.items| == |files|;
      }
    }
  }

  // ---- the request ---------------------------------------------------------------------

  predicate Lower(c: char) { 'a' <= c <= 'z' }
  predicate Digit(c: char) { '0' <= c <= '9' }

  predicate IdentifierText(s: string) {
    && s != "" && (Lower(s[0]) || 'A' <= s[0] <= 'Z' || Digit(s[0]))
    && forall i :: 1 <= i < |s| ==>
         Lower(s[i]) || 'A' <= s[i] <= 'Z' || Digit(s[i]) || s[i] in {'.', '_', ':', '@', '-'}
  }

  predicate PluginIdText(s: string) {
    1 <= |s| <= 64 && Lower(s[0]) && forall i :: 1 <= i < |s| ==> Lower(s[i]) || Digit(s[i]) || s[i] == '-'
  }

  function DecodeRequest(input: Json): Result<Request> {
    if !input.Record? || !(input.fields.Keys <= {"version", "effectId", "id", "mode", "files"}) then Err(InvalidRequest)
    else if Field(input.fields, "version") != Number(VERSION) then Err(InvalidRequest)
    else
      var effectId := Bounded(Field(input.fields, "effectId"), IDENTIFIER_MAX);
      if effectId.Err? then Err(effectId.code)
      else if !IdentifierText(effectId.value) then Err(InvalidRequest)
      else
        var id := Bounded(Field(input.fields, "id"), PLUGIN_ID_MAX);
        if id.Err? then Err(id.code)
        else if !PluginIdText(id.value) then Err(InvalidRequest)
        else
          var mode := Field(input.fields, "mode");
          if !mode.Text? || mode.s !in MODES then Err(InvalidRequest)
          else
            var files := Files(Field(input.fields, "files"));
            if files.Err? then Err(files.code) else Ok(Request(effectId.value, id.value, mode.s, files.value))
  }

  function EncodeRequest(r: Request): Json {
    Record(map["version" := Number(VERSION), "effectId" := Text(r.effectId), "id" := Text(r.id),
               "mode" := Text(r.mode), "files" := EncodeFiles(r.files)])
  }

  predicate RequestFine(r: Request) {
    && IdentifierText(r.effectId) && |r.effectId| <= IDENTIFIER_MAX
    && PluginIdText(r.id) && r.mode in MODES && FilesFine(r.files)
  }

  /** The codec is strict and exact: what decodes is the encoding of what it decodes to, and a
      request decodes from its encoding exactly when it is within the protocol's bounds. */
  lemma RequestCodec(input: Json, r: Request)
    ensures DecodeRequest(input) == Ok(r) <==> input == EncodeRequest(r) && RequestFine(r)
  {
    if input.Record? {
      var o := input.fields;
      FilesAccepted(Field(o, "files"), r.files);
      if DecodeRequest(input) == Ok(r) {
        assert o.Keys == {"version", "effectId", "id", "mode", "files"};
        assert o == EncodeRequest(r).fields;
      }
      if input == EncodeRequest(r) {
        EncodedFields(r);
      }
    }
  }

  lemma EncodedFields(r: Request)
    ensures var o := EncodeRequest(r).fields;
      && o.Keys == {"version", "effectId", "id", "mode", "files"}
      && Field(o, "version") == Number(VERSION)
      && Field(o, "effectId") == Text(r.effectId) && Field(o, "id") == Text(r.id)
      && Field(o, "mode") == Text(r.mode) && Field(o, "files") == EncodeFiles(r.files)
  {
  }

  // ---- the bounds and the faults, by the numbers ---------------------------------------

  /** A character that a source path may hold: printable, and no backslash. */
  predicate PathChar(c: char) {
    32 <= c as int && c as int != 92 && c as int != 127
  }

  predicate PathFine(v: string) {
    && 1 <= |v| <= 256 && AllNameable(Segments(v))
    && forall i :: 0 <= i < |v| ==> PathChar(v[i])
  }

  predicate Alphabetic(n: int) {
    65 <= n <= 90 || 97 <= n <= 122
  }

  predicate Numeric(n: int) {
    48 <= n <= 57
  }

  /** An effect id: 1 to 200 letters, digits and marks, a letter or a digit first. */
  predicate EffectIdFine(s: string) {
    && 1 <= |s| <= 200 && (Alphabetic(s[0] as int) || Numeric(s[0] as int))
    && forall i :: 0 <= i < |s| ==>
         Alphabetic(s[i] as int) || Numeric(s[i] as int)
         || s[i] == '.' || s[i] == '_' || s[i] == ':' || s[i] == '@' || s[i] == '-'
  }

  /** A Plugin id: 1 to 64 lower-case letters, digits and hyphens, a letter first. */
  predicate PluginIdFine(s: string) {
    && 1 <= |s| <= 64 && 97 <= s[0] as int <= 122
    && forall i :: 0 <= i < |s| ==> 97 <= s[i] as int <= 122 || Numeric(s[i] as int) || s[i] == '-'
  }

  /** One to 64 files, no path twice, each text within half a mebibyte, all within one. */
  predicate FilesWithin(files: seq<SourceFile>) {
    && 1 <= |files| <= 64 && PathsDiffer(files) && TotalText(files) <= 0x10_0000
    && forall i :: 0 <= i < |files| ==> PathFine(files[i].path) && |files[i].text| <= 0x8_0000
  }

  lemma PathFineTold(v: string)
    ensures DecodePath(Text(v)) == Ok(v) <==> PathFine(v)
  {
    PathAccepted(v);
    assert AllPlain(v) <==> forall i :: 0 <= i < |v| ==> PathChar(v[i]);
  }

  lemma FilesWithinTold(files: seq<SourceFile>)
    ensures FilesFine(files) <==> FilesWithin(files)
  {
    forall i | 0 <= i < |files| ensures FileFine(files[i]) <==> PathFine(files[i].path) && |files[i].text| <= 0x8_0000 {
      PathFineTold(files[i].path);
    }
  }

  lemma IdsTold(s: string)
    ensures IdentifierText(s) && |s| <= IDENTIFIER_MAX <==> EffectIdFine(s)
    ensures PluginIdText(s) <==> PluginIdFine(s)
  {
  }

  /** What the protocol lets through, by its numbers: version 1, an effect id, a Plugin id, one
      of the two modes and the files, and nothing else. */
  lemma RequestWithin(input: Json, r: Request)
    ensures DecodeRequest(input) == Ok(r) <==>
      && input == Record(map["version" := Number(1), "effectId" := Text(r.effectId), "id" := Text(r.id),
                             "mode" := Text(r.mode), "files" := EncodeFiles(r.files)])
      && EffectIdFine(r.effectId) && PluginIdFine(r.id) && (r.mode == "check" || r.mode == "build")
      && FilesWithin(r.files)
  {
    RequestCodec(input, r);
    IdsTold(r.effectId);
    IdsTold(r.id);
    FilesWithinTold(r.files);
  }

  /** After fine files, an entry of the right shape that is too much: its path, its text, or the
      whole with it. */
  predicate TooMuch(before: seq<SourceFile>, entry: Json) {
    && entry.Record? && entry.fields.Keys <= {"path", "text"} && "path" in entry.fields && entry.fields["path"].Text?
    && var path := entry.fields["path"].s;
       || |path| > 256
       || (PathFine(path) && !Holds(before, path) && "text" in entry.fields && entry.fields["text"].Text?
           && (|entry.fields["text"].s| > 0x8_0000 || TotalText(before) + |entry.fields["text"].s| > 0x10_0000))
  }

  lemma TooMuchTold(before: seq<SourceFile>, entry: Json)
    ensures DecodeFile(before, entry) == Err(LimitExceeded) <==> TooMuch(before, entry)
  {
    if entry.Record? && "path" in entry.fields && entry.fields["path"].Text? {
      PathAccepted(entry.fields["path"].s);
      PathFineTold(entry.fields["path"].s);
    }
  }

  ghost predicate TooMuchAt(items: seq<Json>, before: seq<SourceFile>) {
    |before| < |items| && Encodes(items, |before|, before) && TooMuch(before, items[|before|])
  }

  lemma {:induction false} FirstFault(entries: seq<Json>, n: nat) returns (before: seq<SourceFile>)
    requires n <= |entries| && FilesOf(entries, n).Err?
    ensures |before| < n && FilesOf(entries, |before|) == Ok(before)
    ensures DecodeFile(before, entries[|before|]).Err?
    ensures FilesOf(entries, n).code == DecodeFile(before, entries[|before|]).code
  {
    if FilesOf(entries, n - 1).Err? {
      before := FirstFault(entries, n - 1);
    } else {
      before := FilesOf(entries, n - 1).value;
      FilesLength(entries, n - 1);
    }
  }

  /** A list of files is refused as over a limit exactly when it holds more than 64 entries, or
      its first fault is an entry that is too much; every other fault is an invalid request. */
  lemma FilesOverLimit(input: Json)
    ensures Files(input) == Err(LimitExceeded) <==>
      input.List? && (|input.items| > 64 || exists before :: TooMuchAt(input.items, before))
  {
    if input.List? && input.items != [] && |input.items| <= 64 {
      var items := input.items;
      if Files(input).Err? {
        var before := FirstFault(items, |items|);
        FilesRead(items, |before|, before);
        TooMuchTold(before, items[|before|]);
        assert Files(input).code.LimitExceeded? ==> TooMuchAt(items, before);
      }
      if before :| TooMuchAt(items, before) {
        FilesRead(items, |before|, before);
        TooMuchTold(before, items[|before|]);
        FaultStays(items, |before| + 1, |items|);
      }
    }
  }

  /** So of a request: it is over a limit exactly when, all before it being in order, its effect
      id or its Plugin id is too long, or its files are over theirs. */
  lemma RequestOverLimit(input: Json)
    ensures DecodeRequest(input) == Err(LimitExceeded) <==>
      && input.Record? && input.fields.Keys <= {"version", "effectId", "id", "mode", "files"}
      && Field(input.fields, "version") == Number(1) && Field(input.fields, "effectId").Text?
      && var effectId := Field(input.fields, "effectId").s;
         || |effectId| > 200
         || (EffectIdFine(effectId) && Field(input.fields, "id").Text?
             && var id := Field(input.fields, "id").s;
                || |id| > 64
                || (PluginIdFine(id) && Field(input.fields, "mode") in {Text("check"), Text("build")}
                    && Files(Field(input.fields, "files")) == Err(LimitExceeded)))
  {
    if input.Record? {
      var effectId, id := Field(input.fields, "effectId"), Field(input.fields, "id");
      if effectId.Text? { IdsTold(effectId.s); }
      if id.Text? { IdsTold(id.s); }
    }
  }
}
