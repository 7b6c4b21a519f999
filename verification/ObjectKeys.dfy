/** Object keys of the blob storage adapter and the strings they are printed to and parsed from. */
module ObjectKeys {
  import opened Wrappers
  import opened StringSplitting
  import opened BlobHierarchy

  datatype FileExtension = H5 | PICKLE | CUSTOM_OBJECTS_PKL

  function Text(e: FileExtension): string {
    match e
    case H5 => "h5"
    case PICKLE => "pkl"
    case CUSTOM_OBJECTS_PKL => "custom_objects_pkl"
  }

  function ParseExtension(s: string): Option<FileExtension> {
    if s == Text(H5) then Some(H5)
    else if s == Text(PICKLE) then Some(PICKLE)
    else if s == Text(CUSTOM_OBJECTS_PKL) then Some(CUSTOM_OBJECTS_PKL)
    else None
  }

  /** Printing and parsing UTC times, in ISO format with a `T` or a space before the time of day, and
      job ids. */
  datatype Printers = Printers(
    isoTime: int -> string, spacedTime: int -> string, parseTime: string -> Option<int>,
    jobId: int -> string, parseJobId: string -> Option<int>)

  predicate IsTokenChar(c: char) {
    IsAlphanumeric(c) || c == ':' || c == '+' || c == '-'
  }

  predicate IsIdChar(c: char) {
    IsTokenChar(c) || c == '/' || c == '_'
  }

  predicate AllToken(s: string) {
    forall i :: 0 <= i < |s| ==> IsTokenChar(s[i])
  }

  predicate AllId(s: string) {
    forall i :: 0 <= i < |s| ==> IsIdChar(s[i])
  }

  /** No space is last or comes before a dash, so " - " can neither occur in s nor begin in it. */
  predicate NoDashAfterSpace(s: string) {
    forall i :: 0 <= i < |s| && s[i] == ' ' ==> i + 1 < |s| && s[i + 1] != '-'
  }

  /** Parsing inverts printing; times have whole seconds, so that no dot is printed. */
  ghost predicate Lawful(p: Printers) {
    && (forall t :: p.parseTime(p.isoTime(t)) == Some(t) && AllToken(p.isoTime(t)))
    && (forall t :: p.parseTime(p.spacedTime(t)) == Some(t) && NoDashAfterSpace(p.spacedTime(t)))
    && (forall j :: p.parseJobId(p.jobId(j)) == Some(j) && AllToken(p.jobId(j)))
  }

  predicate EndsWith(s: string, suffix: string) {
    |suffix| <= |s| && s[|s| - |suffix|..] == suffix
  }

  /** The dot in the pattern for ids is not escaped: any character may precede the file extension. */
  predicate HasExtension(s: string, e: FileExtension) {
    EndsWith(s, Text(e)) && |s| > |Text(e)| + 1 && AllId(s[..|s| - |Text(e)| - 1]) && s[|s| - |Text(e)| - 1] != '\n'
  }

  predicate IsIdString(s: string) {
    (s != "" && AllId(s)) || HasExtension(s, H5) || HasExtension(s, PICKLE) || HasExtension(s, CUSTOM_OBJECTS_PKL)
  }

  // ----- keys -----

  datatype ObjectKey = ObjectKey(text: string, name: string, time: int, jobId: int, extension: FileExtension)

  predicate TextMatchesPattern(p: Printers, text: string) {
    && |Split(text, ".")| == 2
    && var parts := Split(Split(text, ".")[0], "_");
       |parts| == 3 && p.parseTime(parts[1]).Some? && p.parseJobId(parts[2]).Some?
  }

  /** A key is validated field by field against its text. */
  function Make(p: Printers, text: string, name: string, time: int, jobId: int, extension: string): Option<ObjectKey> {
    var parts := Split(text, "_");
    if !IsIdString(text) || !TextMatchesPattern(p, text) then None
    else if !IsIdString(name) || name != parts[0] then None
    else if |parts| < 2 || p.isoTime(time) != parts[1] then None
    else if p.jobId(jobId) != Split(Split(text, ".")[0], "_")[2] then None
    else if ParseExtension(extension).None? || extension != Split(text, ".")[1] then None
    else Some(ObjectKey(text, name, time, jobId, ParseExtension(extension).value))
  }

  function Build(p: Printers, name: string, time: int, jobId: int, e: FileExtension): Option<ObjectKey> {
    Make(p, name + "_" + p.isoTime(time) + "_" + p.jobId(jobId) + "." + Text(e), name, time, jobId, Text(e))
  }

  /** The text is split at its last two underscores. */
  function FromString(p: Printers, text: string): Option<ObjectKey> {
    var parts := Split(text, "_");
    var n := |parts|;
    if n < 3 then None
    else
      match SplitOnce(parts[n - 1], ".")
      case None => None
      case Some((jobString, extension)) =>
        var time, jobId := p.parseTime(parts[n - 2]), p.parseJobId(jobString);
        if time.None? || jobId.None? then None
        else Make(p, text, Join(parts[..n - 2], '_'), time.value, jobId.value, extension)
  }

  // ----- the texts of keys -----

  lemma FirstPart(a: string, rest: string)
    requires '_' !in a
    ensures Split(a + "_" + rest, "_") == [a] + Split(rest, "_")
  {
    SplitAtChar(a, '_', rest);
  }

  lemma OnlyPart(a: string)
    requires '_' !in a
    ensures Split(a, "_") == [a]
  {
    NoOccurrence(a, '_');
  }

  lemma Regroup(a: string, b: string, c: string)
    ensures a + "_" + b + "_" + c == a + "_" + (b + "_" + c)
  {
  }

  lemma TwoParts(a: string, b: string, rest: string)
    requires '_' !in a && '_' !in b
    ensures Split(a + "_" + b + "_" + rest, "_") == [a, b] + Split(rest, "_")
  {
    Regroup(a, b, rest);
    FirstPart(a, b + "_" + rest);
    FirstPart(b, rest);
  }

  lemma AtDot(a: string, b: string)
    requires '.' !in a && '.' !in b
    ensures Split(a + "." + b, ".") == [a, b] && SplitOnce(a + "." + b, ".") == Some((a, b))
  {
    NoOccurrence(b, '.');
    SplitAtChar(a, '.', b);
  }

  lemma CustomText()
    ensures Text(CUSTOM_OBJECTS_PKL) == "custom" + "_" + ("objects" + "_" + "pkl")
    ensures '_' !in "custom" && '_' !in "objects" && '_' !in "pkl" && '_' !in "h5"
    ensures '.' !in Text(CUSTOM_OBJECTS_PKL) && '.' !in "pkl" && '.' !in "h5"
  {
  }

  lemma ShiftDot(j: string, x: string, y: string)
    ensures j + "." + (x + "_" + y) == (j + "." + x) + "_" + y
  {
  }

  lemma ExtensionParts(j: string, e: FileExtension)
    requires '_' !in j
    ensures Split(j + "." + Text(e), "_") ==
      if e.CUSTOM_OBJECTS_PKL? then [j + "." + "custom", "objects", "pkl"] else [j + "." + Text(e)]
  {
    CustomText();
    match e {
      case CUSTOM_OBJECTS_PKL => CustomParts(j, "custom", "objects", "pkl");
      case _ => OnlyPart(j + "." + Text(e));
    }
  }

  lemma CustomParts(j: string, x: string, y: string, z: string)
    requires '_' !in j && '_' !in x && '_' !in y && '_' !in z
    ensures Split(j + "." + (x + "_" + (y + "_" + z)), "_") == [j + "." + x, y, z]
  {
    ShiftDot(j, x, y + "_" + z);
    FirstPart(j + "." + x, y + "_" + z);
    FirstPart(y, z);
    OnlyPart(z);
  }

  // ----- which keys are accepted -----

  /** What a name must be like. */
  predicate IsKeyName(name: string) {
    name != "" && AllId(name) && '_' !in name
  }

  function KeyText(p: Printers, name: string, time: int, jobId: int, e: FileExtension): string {
    name + "_" + p.isoTime(time) + "_" + p.jobId(jobId) + "." + Text(e)
  }

  lemma TokensArePlain(s: string)
    requires AllToken(s)
    ensures AllId(s) && '_' !in s && '.' !in s && '/' !in s && ' ' !in s
  {
  }

  /** How the text of a key falls apart. */
  lemma KeyTextParts(p: Printers, name: string, time: int, jobId: int, e: FileExtension)
    requires Lawful(p) && '_' !in name && '.' !in name
    ensures var text, stem, job := KeyText(p, name, time, jobId, e), name + "_" + p.isoTime(time) + "_" + p.jobId(jobId), p.jobId(jobId);
      && Split(text, ".") == [stem, Text(e)]
      && Split(stem, "_") == [name, p.isoTime(time), job]
      && Split(text, "_") == [name, p.isoTime(time)] + Split(job + "." + Text(e), "_")
  {
    hide Text;
    var iso, job := p.isoTime(time), p.jobId(jobId);
    var stem := name + "_" + iso + "_" + job;
    TokensArePlain(iso);
    TokensArePlain(job);
    TwoParts(name, iso, job);
    OnlyPart(job);
    TextHasNoDot(e);
    AtDot(stem, Text(e));
    assert stem + "." + Text(e) == name + "_" + iso + "_" + (job + "." + Text(e));
    TwoParts(name, iso, job + "." + Text(e));
  }

  lemma TextHasNoDot(e: FileExtension)
    ensures '.' !in Text(e) && ParseExtension(Text(e)) == Some(e)
  {
    CustomText();
  }

  lemma StemExtended(stem: string, e: FileExtension)
    requires stem != "" && AllId(stem)
    ensures IsIdString(stem + "." + Text(e))
  {
    hide Text;
    var text := stem + "." + Text(e);
    assert text[..|text| - |Text(e)| - 1] == stem;
    assert HasExtension(text, e);
  }

  /** Behind the stem comes the only dot, so the extension recognised is the extension. */
  lemma StemRecovered(stem: string, e: FileExtension, e': FileExtension)
    requires HasExtension(stem + "." + Text(e), e')
    ensures AllId(stem)
  {
    hide Text;
    var text := stem + "." + Text(e);
    var n := |text| - |Text(e')| - 1;
    TextHasNoDot(e');
    assert text[|stem|] == '.';
    assert n <= |stem| by {
      assert forall i :: 0 <= i < n ==> text[..n][i] == text[i];
    }
    assert |stem| <= n by {
      assert forall i :: n < i < |text| ==> text[i] == Text(e')[i - n - 1];
    }
    assert text[..n] == stem;
  }

  lemma MakeAccepts(p: Printers, name: string, time: int, jobId: int, e: FileExtension)
    requires Lawful(p) && IsKeyName(name)
    ensures Build(p, name, time, jobId, e) == Some(ObjectKey(KeyText(p, name, time, jobId, e), name, time, jobId, e))
  {
    KeyTextParts(p, name, time, jobId, e);
    TextHasNoDot(e);
    KeyTextIsIdString(p, name, time, jobId, e);
    NameIsIdString(name);
    hide Text, IsIdString, ParseExtension, Split;
  }

  lemma KeyTextIsIdString(p: Printers, name: string, time: int, jobId: int, e: FileExtension)
    requires Lawful(p) && IsKeyName(name)
    ensures IsIdString(KeyText(p, name, time, jobId, e))
  {
    hide Text, IsIdString;
    TokensArePlain(p.isoTime(time));
    TokensArePlain(p.jobId(jobId));
    StemExtended(name + "_" + p.isoTime(time) + "_" + p.jobId(jobId), e);
  }

  lemma NameIsIdString(name: string)
    requires IsKeyName(name)
    ensures IsIdString(name) && '.' !in name
  {
  }

  lemma EmptyIsNoIdString(name: string)
    requires IsIdString(name)
    ensures name != ""
  {
  }

  lemma StemOfId(stem: string, e: FileExtension)
    requires IsIdString(stem + "." + Text(e))
    ensures AllId(stem)
  {
    hide Text, HasExtension;
    var text := stem + "." + Text(e);
    assert text[|stem|] == '.';
    assert !AllId(text);
    if HasExtension(text, H5) {
      StemRecovered(stem, e, H5);
    } else if HasExtension(text, PICKLE) {
      StemRecovered(stem, e, PICKLE);
    } else {
      StemRecovered(stem, e, CUSTOM_OBJECTS_PKL);
    }
  }

  lemma MakeRejects(p: Printers, name: string, time: int, jobId: int, e: FileExtension)
    requires Build(p, name, time, jobId, e).Some?
    ensures IsKeyName(name)
  {
    hide IsIdString, TextMatchesPattern, Split, ParseExtension, Text;
    var text := KeyText(p, name, time, jobId, e);
    var stem := name + "_" + p.isoTime(time) + "_" + p.jobId(jobId);
    assert name == Split(text, "_")[0];
    PartsLackSeparator(text, '_');
    EmptyIsNoIdString(name);
    StemOfId(stem, e);
    assert forall i :: 0 <= i < |name| ==> name[i] == stem[i];
  }

  /** A key is made exactly from the names of allowed characters without underscores. */
  lemma BuildExact(p: Printers, name: string, time: int, jobId: int, e: FileExtension)
    requires Lawful(p)
    ensures Build(p, name, time, jobId, e) ==
      if IsKeyName(name) then Some(ObjectKey(KeyText(p, name, time, jobId, e), name, time, jobId, e)) else None
  {
    if IsKeyName(name) {
      MakeAccepts(p, name, time, jobId, e);
    } else if Build(p, name, time, jobId, e).Some? {
      MakeRejects(p, name, time, jobId, e);
    }
  }

  // ----- parsing -----

  lemma ParseInvertsBuild(p: Printers, name: string, time: int, jobId: int, e: FileExtension)
    requires Lawful(p) && IsKeyName(name)
    ensures FromString(p, KeyText(p, name, time, jobId, e)) ==
      if e.CUSTOM_OBJECTS_PKL? then None else Build(p, name, time, jobId, e)
  {
    hide Make, Text;
    var text, job := KeyText(p, name, time, jobId, e), p.jobId(jobId);
    NameIsIdString(name);
    KeyTextParts(p, name, time, jobId, e);
    TokensArePlain(job);
    ExtensionParts(job, e);
    var parts := Split(text, "_");
    if e.CUSTOM_OBJECTS_PKL? {
      assert parts[|parts| - 1] == "pkl";
      CustomText();
      NoOccurrence("pkl", '.');
    } else {
      assert parts == [name, p.isoTime(time), job + "." + Text(e)];
      TextHasNoDot(e);
      AtDot(job, Text(e));
      assert Join(parts[..1], '_') == name;
    }
  }

  lemma JoinThree(parts: seq<string>)
    requires |parts| == 3
    ensures Join(parts, '_') == parts[0] + "_" + parts[1] + "_" + parts[2]
  {
    assert parts[..2][..1] == [parts[0]];
    assert Join([parts[0]], '_') == parts[0];
    assert Join(parts[..2], '_') == parts[0] + "_" + parts[1];
  }

  lemma JoinTwo(parts: seq<string>, c: char)
    requires |parts| == 2
    ensures Join(parts, c) == parts[0] + [c] + parts[1]
  {
    assert parts[..1] == [parts[0]];
    assert Join(parts[..1], c) == parts[0];
  }

  lemma PatternParts(p: Printers, text: string)
    requires TextMatchesPattern(p, text)
    ensures var dots := Split(text, ".");
      var parts := Split(dots[0], "_");
      && text == parts[0] + "_" + parts[1] + "_" + parts[2] + "." + dots[1]
      && |Split(text, "_")| >= 2 && Split(text, "_")[0] == parts[0] && Split(text, "_")[1] == parts[1]
  {
    hide Join, Split;
    var dots := Split(text, ".");
    var stem := dots[0];
    var parts := Split(stem, "_");
    JoinSplit(text, '.');
    JoinTwo(dots, '.');
    JoinSplit(stem, '_');
    JoinThree(parts);
    PartsLackSeparator(stem, '_');
    RegroupEnd(parts[0] + "_" + parts[1], parts[2], dots[1]);
    TwoParts(parts[0], parts[1], parts[2] + "." + dots[1]);
  }

  lemma RegroupEnd(a: string, b: string, c: string)
    ensures a + "_" + b + "." + c == a + "_" + (b + "." + c)
  {
  }

  /** An accepted text is the text of the key it stands for. */
  lemma TextOfKey(p: Printers, text: string, name: string, time: int, jobId: int, extension: string)
    requires Make(p, text, name, time, jobId, extension).Some?
    ensures text == KeyText(p, name, time, jobId, Make(p, text, name, time, jobId, extension).value.extension)
    ensures Build(p, name, time, jobId, Make(p, text, name, time, jobId, extension).value.extension) == Make(p, text, name, time, jobId, extension)
  {
    hide IsIdString, TextMatchesPattern, Split, ParseExtension, Text;
    assert TextMatchesPattern(p, text);
    PatternParts(p, text);
    ExtensionParsed(extension);
  }

  lemma ExtensionParsed(extension: string)
    requires ParseExtension(extension).Some?
    ensures Text(ParseExtension(extension).value) == extension
  {
  }

  /** Parsing inverts the builder for `h5` and `pkl`, and accepts nothing else. Keys for custom objects
      are made, but never parsed: the underscores of their extension absorb the split from the right. */
  lemma FromStringExact(p: Printers, text: string, k: ObjectKey)
    requires Lawful(p)
    ensures FromString(p, text) == Some(k) <==>
      k.text == text && !k.extension.CUSTOM_OBJECTS_PKL? && Build(p, k.name, k.time, k.jobId, k.extension) == Some(k)
  {
    hide Make, Text, AllId;
    if FromString(p, text) == Some(k) {
      var parts := Split(text, "_");
      var n := |parts|;
      var (jobString, extension) := SplitOnce(parts[n - 1], ".").value;
      var name, time, jobId := Join(parts[..n - 2], '_'), p.parseTime(parts[n - 2]).value, p.parseJobId(jobString).value;
      MakeKeepsArguments(p, text, name, time, jobId, extension);
      TextOfKey(p, text, name, time, jobId, extension);
      BuildExact(p, k.name, k.time, k.jobId, k.extension);
      ParseInvertsBuild(p, k.name, k.time, k.jobId, k.extension);
    }
    if k.text == text && !k.extension.CUSTOM_OBJECTS_PKL? && Build(p, k.name, k.time, k.jobId, k.extension) == Some(k) {
      BuildExact(p, k.name, k.time, k.jobId, k.extension);
      ParseInvertsBuild(p, k.name, k.time, k.jobId, k.extension);
    }
  }

  lemma MakeKeepsArguments(p: Printers, text: string, name: string, time: int, jobId: int, extension: string)
    requires Make(p, text, name, time, jobId, extension).Some?
    ensures var k := Make(p, text, name, time, jobId, extension).value;
      k.text == text && k.name == name && k.time == time && k.jobId == jobId
  {
  }

  // ----- sources -----

  datatype Source = Source(id: string, thingNodeId: string, name: string, path: string, metadataKey: string)

  /** `rsplit("/", 1)[-1]` */
  function LastPart(name: string): string {
    var parts := Split(name, "/");
    parts[|parts| - 1]
  }

  function MetadataKey(p: Printers, k: ObjectKey): string {
    LastPart(k.name) + " - " + p.spacedTime(k.time) + " - " + (p.jobId(k.jobId) + " (" + Text(k.extension) + ")")
  }

  function ThingNodeId(bucket: string, k: ObjectKey): string {
    bucket + "/" + k.name
  }

  /** The job id and the extension in brackets behind it, if any. */
  function JobAndExtension(s: string): (string, string) {
    match SplitOnce(s, " (")
    case None => (s, "")
    case Some((job, rest)) => (job, Split(rest, ")")[0])
  }

  /** A key again, from the thing node id and the metadata key of a source. */
  function FromThingNodeIdAndMetadataKey(p: Printers, thingNodeId: string, metadataKey: string): Option<ObjectKey> {
    var parts := Split(metadataKey, " - ");
    if |parts| != 3 || !EndsWith(thingNodeId, parts[0]) then None
    else
      match BucketAndPrefix(thingNodeId)
      case None => None
      case Some((_, prefix)) =>
        var (job, extension) := JobAndExtension(parts[2]);
        var time, jobId, e := p.parseTime(parts[1]), p.parseJobId(job), ParseExtension(extension);
        if time.None? || jobId.None? || e.None? then None
        else Build(p, prefix, time.value, jobId.value, e.value)
  }

  lemma SpaceThenDash(s: string, i: nat)
    requires i + 3 <= |s|
    ensures Occurs(s, " - ", i) ==> s[i] == ' ' && s[i + 1] == '-'
  {
    var w := s[i..i + 3];
    assert w[0] == s[i] && w[1] == s[i + 1];
  }

  lemma AtDash(a: string, b: string)
    requires NoDashAfterSpace(a)
    ensures Split(a + " - " + b, " - ") == [a] + Split(b, " - ")
  {
    var s := a + " - " + b;
    forall i | 0 <= i < |a| ensures !Occurs(s, " - ", i) {
      SpaceThenDash(s, i);
      assert s[i] == a[i] && (i + 1 < |a| ==> s[i + 1] == a[i + 1]);
    }
    SplitOnceUnique(a, " - ", b);
  }

  lemma DashFound(a: string)
    requires SplitOnce(a, " - ").Some?
    ensures exists i :: 0 <= i && i + 1 < |a| && a[i] == ' ' && a[i + 1] == '-'
  {
    var (x, y) := SplitOnce(a, " - ").value;
    assert a[|x|] == ' ' && a[|x| + 1] == '-';
  }

  lemma NoDash(a: string)
    requires NoDashAfterSpace(a)
    ensures Split(a, " - ") == [a]
  {
    if SplitOnce(a, " - ").Some? {
      DashFound(a);
    }
  }

  lemma JobParts(job: string, e: FileExtension)
    requires AllToken(job)
    ensures NoDashAfterSpace(job + " (" + Text(e) + ")")
    ensures SplitOnce(job + " (" + Text(e) + ")", " (") == Some((job, Text(e) + ")"))
    ensures SplitOnce(Text(e) + ")", ")") == Some((Text(e), ""))
  {
    var s, rest := job + " (" + Text(e) + ")", Text(e) + ")";
    ExtensionChars(e);
    TokensArePlain(job);
    assert forall i :: 0 <= i < |s| && s[i] == ' ' ==> i == |job|;
    assert s == job + " (" + rest;
    forall i | 0 <= i < |job| ensures !Occurs(s, " (", i) {
      assert s[i..i + 2][0] == job[i];
    }
    SplitOnceUnique(job, " (", rest);
    SplitAtChar(Text(e), ')', "");
    assert rest == Text(e) + [')'] + "";
  }

  lemma ExtensionChars(e: FileExtension)
    ensures ' ' !in Text(e) && ')' !in Text(e) && '/' !in Text(e)
  {
  }

  lemma {:induction false} LastPartEnds(name: string)
    ensures EndsWith(name, LastPart(name)) && '/' !in LastPart(name)
    decreases |name|
  {
    match SplitOnce(name, "/") {
      case None => PartsLackSeparator(name, '/');
      case Some((a, b)) =>
        LastPartEnds(b);
        assert LastPart(name) == LastPart(b);
        assert name[|name| - |LastPart(b)|..] == b[|b| - |LastPart(b)|..];
    }
  }

  lemma MetadataParts(p: Printers, k: ObjectKey)
    requires Lawful(p) && IsKeyName(k.name)
    ensures Split(MetadataKey(p, k), " - ") == [LastPart(k.name), p.spacedTime(k.time), p.jobId(k.jobId) + " (" + Text(k.extension) + ")"]
  {
    var l, t, j := LastPart(k.name), p.spacedTime(k.time), p.jobId(k.jobId) + " (" + Text(k.extension) + ")";
    LastPartPlain(k.name);
    JobParts(p.jobId(k.jobId), k.extension);
    assert MetadataKey(p, k) == l + " - " + (t + " - " + j);
    AtDash(l, t + " - " + j);
    AtDash(t, j);
    NoDash(j);
  }

  lemma LastPartPlain(name: string)
    requires IsKeyName(name)
    ensures AllToken(LastPart(name)) && NoDashAfterSpace(LastPart(name)) && EndsWith(name, LastPart(name))
  {
    LastPartEnds(name);
    var l := LastPart(name);
    assert forall i :: 0 <= i < |l| ==> l[i] == name[|name| - |l| + i];
  }

  /** Rebuilding from the thing node id and the metadata key of a source returns the same key. */
  lemma RebuildReturnsKey(p: Printers, bucket: string, k: ObjectKey)
    requires Lawful(p) && IsBucketName(bucket) && Build(p, k.name, k.time, k.jobId, k.extension) == Some(k)
    ensures FromThingNodeIdAndMetadataKey(p, ThingNodeId(bucket, k), MetadataKey(p, k)) == Some(k)
  {
    hide Text, Make, LastPart, IsBucketName;
    BuildExact(p, k.name, k.time, k.jobId, k.extension);
    MetadataParts(p, k);
    BucketSplits(bucket, k.name);
    LastPartPlain(k.name);
    JobParts(p.jobId(k.jobId), k.extension);
    TextHasNoDot(k.extension);
    var id, l := ThingNodeId(bucket, k), LastPart(k.name);
    assert id[|id| - |l|..] == k.name[|k.name| - |l|..];
  }

  function SourceOf(p: Printers, bucket: string, k: ObjectKey): Source {
    Source(bucket + "/" + k.text, ThingNodeId(bucket, k), MetadataKey(p, k), ThingNodeId(bucket, k), MetadataKey(p, k))
  }

  /** `rsplit("_", 2)[0]` */
  function WithoutLastTwo(s: string): string {
    var parts := Split(s, "_");
    Join(parts[..if |parts| > 2 then |parts| - 2 else 1], '_')
  }

  predicate NameMatchesId(p: Printers, name: string, id: string) {
    var file, parts := FromString(p, LastPart(id)), Split(name, " - ");
    && file.Some? && |parts| == 3
    && parts[0] == file.value.name && parts[1] == p.spacedTime(file.value.time)
    && var (job, extension) := JobAndExtension(parts[2]);
       && job == p.jobId(file.value.jobId)
       && (SplitOnce(parts[2], " (").Some? ==>
             SplitOnce(SplitOnce(parts[2], " (").value.1, ")").Some? && extension == Text(file.value.extension))
  }

  /** The validation of a source. */
  predicate IsValidSource(p: Printers, s: Source) {
    && IsIdString(s.id) && BucketAndPrefix(s.id).Some? && FromString(p, BucketAndPrefix(s.id).value.1).Some?
    && IsIdString(s.thingNodeId) && s.thingNodeId == WithoutLastTwo(s.id)
    && NameMatchesId(p, s.name, s.id)
    && s.path == s.thingNodeId && s.metadataKey == s.name
  }

  lemma {:induction false} LastPartExtended(name: string, suffix: string)
    requires '/' !in suffix
    ensures LastPart(name + suffix) == LastPart(name) + suffix
    decreases |name|
  {
    match SplitOnce(name, "/") {
      case None =>
        PartsLackSeparator(name, '/');
        assert name == Split(name, "/")[0];
        NoOccurrence(name + suffix, '/');
      case Some((a, b)) =>
        LastPartExtended(b, suffix);
        PartsLackSeparator(name, '/');
        assert a == Split(name, "/")[0];
        SlashFirst(a, b);
        SlashFirst(a, b + suffix);
        assert name + suffix == a + "/" + (b + suffix);
    }
  }

  lemma SlashFirst(a: string, b: string)
    requires '/' !in a
    ensures LastPart(a + "/" + b) == LastPart(b)
  {
    SplitAtChar(a, '/', b);
  }

  function Suffix(p: Printers, k: ObjectKey): string {
    "_" + (p.isoTime(k.time) + "_" + (p.jobId(k.jobId) + "." + Text(k.extension)))
  }

  lemma TextIsNameAndSuffix(p: Printers, name: string, k: ObjectKey)
    ensures KeyText(p, name, k.time, k.jobId, k.extension) == name + Suffix(p, k)
  {
  }

  /** The last part of a source id is the text of the key without the directories of its name. */
  lemma FileOfSource(p: Printers, bucket: string, k: ObjectKey)
    requires Lawful(p) && IsBucketName(bucket) && Build(p, k.name, k.time, k.jobId, k.extension) == Some(k)
    ensures LastPart(bucket + "/" + k.text) == KeyText(p, LastPart(k.name), k.time, k.jobId, k.extension)
  {
    hide Make, LastPart, Text;
    BuildExact(p, k.name, k.time, k.jobId, k.extension);
    TokensArePlain(p.isoTime(k.time));
    TokensArePlain(p.jobId(k.jobId));
    ExtensionChars(k.extension);
    TextIsNameAndSuffix(p, k.name, k);
    TextIsNameAndSuffix(p, LastPart(k.name), k);
    SlashFirst(bucket, k.text);
    LastPartExtended(k.name, Suffix(p, k));
  }

  lemma IdOfSource(p: Printers, bucket: string, k: ObjectKey)
    requires Lawful(p) && IsBucketName(bucket) && Build(p, k.name, k.time, k.jobId, k.extension) == Some(k)
    requires !k.extension.CUSTOM_OBJECTS_PKL?
    ensures WithoutLastTwo(bucket + "/" + k.text) == ThingNodeId(bucket, k)
    ensures IsIdString(bucket + "/" + k.text) && IsIdString(ThingNodeId(bucket, k))
  {
    hide Make, Text, LastPart, IsIdString;
    BuildExact(p, k.name, k.time, k.jobId, k.extension);
    var id, name := bucket + "/" + k.text, ThingNodeId(bucket, k);
    BucketIsId(bucket, k.name);
    NameIsIdString(name);
    TextIsNameAndSuffix(p, k.name, k);
    TextIsNameAndSuffix(p, name, k);
    assert id == KeyText(p, name, k.time, k.jobId, k.extension);
    MakeAccepts(p, name, k.time, k.jobId, k.extension);
    KeyTextParts(p, name, k.time, k.jobId, k.extension);
    TokensArePlain(p.jobId(k.jobId));
    ExtensionParts(p.jobId(k.jobId), k.extension);
    assert Join(Split(id, "_")[..1], '_') == name;
    MadeTextIsId(p, name, k.time, k.jobId, k.extension);
  }

  lemma MadeTextIsId(p: Printers, name: string, time: int, jobId: int, e: FileExtension)
    requires Build(p, name, time, jobId, e).Some?
    ensures IsIdString(KeyText(p, name, time, jobId, e))
  {
  }

  lemma BucketIsId(bucket: string, name: string)
    requires IsBucketName(bucket) && IsKeyName(name)
    ensures IsKeyName(bucket + "/" + name)
  {
  }

  lemma OnlyNamedKeysParse(p: Printers, k: ObjectKey)
    requires Lawful(p)
    ensures FromString(p, KeyText(p, "", k.time, k.jobId, k.extension)).None?
  {
    hide Make, Text;
    var text := KeyText(p, "", k.time, k.jobId, k.extension);
    if FromString(p, text).Some? {
      var k' := FromString(p, text).value;
      FromStringExact(p, text, k');
      BuildExact(p, k'.name, k'.time, k'.jobId, k'.extension);
      NameIsIdString(k'.name);
      KeyTextParts(p, k'.name, k'.time, k'.jobId, k'.extension);
      KeyTextParts(p, "", k.time, k.jobId, k.extension);
    }
  }

  lemma NameOfSource(p: Printers, bucket: string, k: ObjectKey)
    requires Lawful(p) && IsBucketName(bucket) && Build(p, k.name, k.time, k.jobId, k.extension) == Some(k)
    requires !k.extension.CUSTOM_OBJECTS_PKL?
    ensures NameMatchesId(p, MetadataKey(p, k), bucket + "/" + k.text) <==> LastPart(k.name) != ""
  {
    hide Make, Text, LastPart, IsIdString;
    FileOfSource(p, bucket, k);
    BuildExact(p, k.name, k.time, k.jobId, k.extension);
    MetadataParts(p, k);
    var l := LastPart(k.name);
    LastPartPlain(k.name);
    if l == "" {
      OnlyNamedKeysParse(p, k);
    } else {
      TokensArePlain(l);
      BuildExact(p, l, k.time, k.jobId, k.extension);
      ParseInvertsBuild(p, l, k.time, k.jobId, k.extension);
      JobParts(p.jobId(k.jobId), k.extension);
    }
  }

  /** A source can be made exactly for the keys that can be parsed again and whose name does not end in
      a directory separator. */
  lemma SourceExact(p: Printers, bucket: string, k: ObjectKey)
    requires Lawful(p) && IsBucketName(bucket) && Build(p, k.name, k.time, k.jobId, k.extension) == Some(k)
    ensures IsValidSource(p, SourceOf(p, bucket, k)) <==> !k.extension.CUSTOM_OBJECTS_PKL? && LastPart(k.name) != ""
  {
    hide Make, Text, LastPart, IsIdString, IsBucketName, NameMatchesId;
    BucketSplits(bucket, k.text);
    if k.extension.CUSTOM_OBJECTS_PKL? {
      BuildExact(p, k.name, k.time, k.jobId, k.extension);
      ParseInvertsBuild(p, k.name, k.time, k.jobId, k.extension);
    } else {
      FromStringExact(p, k.text, k);
      IdOfSource(p, bucket, k);
      NameOfSource(p, bucket, k);
    }
  }
}
