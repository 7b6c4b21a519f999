/** Which strings are ids, and which sources are valid: the patterns and validators of the blob storage
    adapter, read as descriptions of texts. */
module ObjectSources {
  import opened Wrappers
  import opened StringSplitting
  import opened BlobHierarchy
  import opened ObjectKeys

  // ----- id strings -----

  /** Letters, digits and some signs. */
  ghost predicate InId(c: char) {
    'a' <= c <= 'z' || 'A' <= c <= 'Z' || '0' <= c <= '9' || c in ":+-/_"
  }

  ghost predicate InIds(s: string) {
    s != "" && forall c :: c in s ==> InId(c)
  }

  const Extensions: set<string> := {"h5", "pkl", "custom_objects_pkl"}

  /** Such characters, or some of them followed by any one character and a file extension. */
  lemma IdStringExact(s: string)
    ensures IsIdString(s) <==> InIds(s) || exists a: string, dot: char, e: string :: s == a + [dot] + e && InIds(a) && dot != '\n' && e in Extensions
  {
    AllIdExact(s);
    forall e ensures HasExtension(s, e) <==> exists a: string, dot: char :: s == a + [dot] + Text(e) && InIds(a) && dot != '\n' {
      HasExtensionExact(s, e);
    }
    assert Extensions == {Text(H5), Text(PICKLE), Text(CUSTOM_OBJECTS_PKL)};
    hide Text, HasExtension, AllId, InIds;
  }

  lemma AllIdExact(s: string)
    ensures InIds(s) <==> s != "" && AllId(s)
  {
    assert forall c :: InId(c) <==> IsIdChar(c);
    hide InId, IsIdChar;
    if InIds(s) {
      assert forall i :: 0 <= i < |s| ==> s[i] in s;
    }
  }

  lemma HasExtensionExact(s: string, e: FileExtension)
    ensures HasExtension(s, e) <==> exists a: string, dot: char :: s == a + [dot] + Text(e) && InIds(a) && dot != '\n'
  {
    hide Text, AllId, InIds;
    if HasExtension(s, e) {
      var n := |s| - |Text(e)| - 1;
      AllIdExact(s[..n]);
      assert s == s[..n] + [s[n]] + Text(e);
    }
    if a: string, dot: char :| s == a + [dot] + Text(e) && InIds(a) && dot != '\n' {
      AllIdExact(a);
      assert s[..|a|] == a && s[|a| + 1..] == Text(e);
    }
  }

  // ----- sources -----

  /** The text behind the last directory separator. */
  ghost predicate IsLastPart(name: string, l: string) {
    '/' !in l && (name == l || exists d: string :: name == d + "/" + l)
  }

  lemma {:induction false} LastPartExact(name: string)
    ensures IsLastPart(name, LastPart(name))
    decreases |name|
  {
    LastPartEnds(name);
    match SplitOnce(name, "/") {
      case None =>
      case Some((a, b)) =>
        LastPartExact(b);
        var l := LastPart(name);
        assert Split(name, "/") == [a] + Split(b, "/") && l == LastPart(b);
        if b == l {
          assert name == a + "/" + l;
        } else {
          var d: string :| b == d + "/" + l;
          assert name == (a + "/" + d) + "/" + l;
        }
    }
  }

  lemma NoLonger(name: string, l: string, m: string)
    requires IsLastPart(name, l) && IsLastPart(name, m)
    ensures |l| <= |m|
  {
    assert forall i :: 0 <= i < |l| ==> l[i] == name[|name| - |l| + i];
    assert name != m ==> |m| < |name| && name[|name| - |m| - 1] == '/';
  }

  lemma LastPartUnique(name: string, l: string)
    requires IsLastPart(name, l)
    ensures l == LastPart(name)
  {
    LastPartExact(name);
    NoLonger(name, l, LastPart(name));
    NoLonger(name, LastPart(name), l);
    assert name[|name| - |l|..] == l;
  }

  /** The job id, perhaps with the extension in brackets and anything behind. */
  ghost predicate IsTail(p: Printers, k: ObjectKey, tail: string) {
    && SplitOnce(tail, " - ").None?
    && (tail == p.jobId(k.jobId) || exists rest: string :: tail == p.jobId(k.jobId) + " (" + (Text(k.extension) + ")" + rest))
  }

  ghost predicate IsSourceOf(p: Printers, s: Source, bucket: string, k: ObjectKey, l: string, tail: string) {
    && IsBucketName(bucket) && Build(p, k.name, k.time, k.jobId, k.extension) == Some(k) && !k.extension.CUSTOM_OBJECTS_PKL?
    && IsLastPart(k.name, l) && l != "" && IsTail(p, k, tail)
    && s.id == bucket + "/" + k.text && s.thingNodeId == s.path == bucket + "/" + k.name
    && s.name == s.metadataKey == l + " - " + p.spacedTime(k.time) + " - " + tail
  }

  lemma SplitStep(s: string, m: string)
    requires m != "" && |Split(s, m)| > 1
    ensures SplitOnce(s, m).Some? && Split(s, m) == [SplitOnce(s, m).value.0] + Split(SplitOnce(s, m).value.1, m)
  {
  }

  lemma SplitEnd(s: string, m: string)
    requires m != "" && |Split(s, m)| == 1
    ensures SplitOnce(s, m).None? && Split(s, m) == [s]
  {
  }

  lemma ThreeParts(s: string, m: string)
    requires m != "" && |Split(s, m)| == 3
    ensures var parts := Split(s, m);
      s == parts[0] + m + (parts[1] + m + parts[2]) && SplitOnce(parts[2], m).None?
  {
    hide Split;
    SplitStep(s, m);
    var (a, b) := SplitOnce(s, m).value;
    SplitStep(b, m);
    var (c, d) := SplitOnce(b, m).value;
    SplitEnd(d, m);
  }

  lemma TailExact(p: Printers, k: ObjectKey, tail: string)
    requires Lawful(p) && SplitOnce(tail, " - ").None?
    ensures IsTail(p, k, tail) <==>
      && JobAndExtension(tail).0 == p.jobId(k.jobId)
      && (SplitOnce(tail, " (").Some? ==>
            SplitOnce(SplitOnce(tail, " (").value.1, ")").Some? && JobAndExtension(tail).1 == Text(k.extension))
  {
    hide Text;
    var job := p.jobId(k.jobId);
    TokensArePlain(job);
    if tail == job {
      NoBracket(job);
    } else if rest: string :| tail == job + " (" + (Text(k.extension) + ")" + rest) {
      BracketFound(job, Text(k.extension) + ")" + rest);
      ExtensionChars(k.extension);
      SplitAtChar(Text(k.extension), ')', rest);
      assert Split(Text(k.extension) + ")" + rest, ")")[0] == Text(k.extension);
    } else if SplitOnce(tail, " (").Some? {
      var (a, b) := SplitOnce(tail, " (").value;
      if SplitOnce(b, ")").Some? && a == job {
        var (x, rest) := SplitOnce(b, ")").value;
        assert Split(b, ")")[0] == x;
        assert tail == job + " (" + (x + ")" + rest);
      }
    }
  }

  lemma NoBracket(s: string)
    requires ' ' !in s
    ensures SplitOnce(s, " (").None?
  {
    forall a: string, b: string ensures ' ' in a + " (" + b {
      assert (a + " (" + b)[|a|] == ' ';
    }
  }

  lemma BracketFound(job: string, rest: string)
    requires ' ' !in job
    ensures SplitOnce(job + " (" + rest, " (") == Some((job, rest))
  {
    var s := job + " (" + rest;
    forall i | 0 <= i < |job| ensures !Occurs(s, " (", i) {
      assert s[i..i + 2][0] == job[i];
    }
    SplitOnceUnique(job, " (", rest);
  }

  /** The last part of a source id is the text of a key, for the last part of the name. */
  lemma FileParsed(p: Printers, bucket: string, k: ObjectKey)
    requires Lawful(p) && IsBucketName(bucket) && Build(p, k.name, k.time, k.jobId, k.extension) == Some(k) && !k.extension.CUSTOM_OBJECTS_PKL?
    ensures var file := FromString(p, LastPart(bucket + "/" + k.text));
      && (file.Some? <==> LastPart(k.name) != "")
      && (file.Some? ==> file.value.name == LastPart(k.name) && file.value.time == k.time && file.value.jobId == k.jobId && file.value.extension == k.extension)
  {
    hide Make, Text, LastPart, IsBucketName;
    FileOfSource(p, bucket, k);
    BuildExact(p, k.name, k.time, k.jobId, k.extension);
    var l := LastPart(k.name);
    LastPartPlain(k.name);
    if l == "" {
      OnlyNamedKeysParse(p, k);
    } else {
      TokensArePlain(l);
      BuildExact(p, l, k.time, k.jobId, k.extension);
      ParseInvertsBuild(p, l, k.time, k.jobId, k.extension);
    }
  }

  /** The name of a source fits its id exactly if it names the file, the time and the job of its key. */
  lemma NameExact(p: Printers, name: string, bucket: string, k: ObjectKey)
    requires Lawful(p) && IsBucketName(bucket) && Build(p, k.name, k.time, k.jobId, k.extension) == Some(k) && !k.extension.CUSTOM_OBJECTS_PKL?
    ensures NameMatchesId(p, name, bucket + "/" + k.text) <==>
      LastPart(k.name) != "" && exists tail :: IsTail(p, k, tail) && name == LastPart(k.name) + " - " + p.spacedTime(k.time) + " - " + tail
  {
    hide Make, Text, LastPart, IsBucketName, JobAndExtension, Build, IsTail, IsIdString, Split;
    FileParsed(p, bucket, k);
    BuildExact(p, k.name, k.time, k.jobId, k.extension);
    LastPartPlain(k.name);
    var l, t := LastPart(k.name), p.spacedTime(k.time);
    var parts := Split(name, " - ");
    if |parts| == 3 {
      ThreeParts(name, " - ");
      TailExact(p, k, parts[2]);
      Regrouped(parts[0], parts[1], parts[2]);
    }
    if tail :| IsTail(p, k, tail) && name == l + " - " + t + " - " + tail {
      Regrouped(l, t, tail);
      NamedParts(p, k, l, t, tail);
      TailExact(p, k, tail);
    }
  }

  lemma Regrouped(a: string, b: string, c: string)
    ensures a + " - " + b + " - " + c == a + " - " + (b + " - " + c)
  {
  }

  lemma NamedParts(p: Printers, k: ObjectKey, l: string, t: string, tail: string)
    requires NoDashAfterSpace(l) && NoDashAfterSpace(t) && IsTail(p, k, tail)
    ensures Split(l + " - " + (t + " - " + tail), " - ") == [l, t, tail] && SplitOnce(tail, " - ").None?
  {
    hide NoDashAfterSpace;
    AtDash(l, t + " - " + tail);
    AtDash(t, tail);
  }

  /** A source is valid exactly if it is the source of a parseable key: id and thing node id are those of the
      key in the bucket, and the name gives the last part of the key's name, its time and its job id. */
  lemma ValidSourcesExactly(p: Printers, s: Source)
    requires Lawful(p)
    ensures IsValidSource(p, s) <==> exists bucket, k, l, tail :: IsSourceOf(p, s, bucket, k, l, tail)
  {
    hide Make, Text, LastPart, IsIdString, IsBucketName, NameMatchesId, IsTail, IsLastPart;
    if IsValidSource(p, s) {
      var (bucket, text) := BucketAndPrefix(s.id).value;
      var k := FromString(p, text).value;
      FromStringExact(p, text, k);
      IdOfSource(p, bucket, k);
      NameExact(p, s.name, bucket, k);
      var tail :| IsTail(p, k, tail) && s.name == LastPart(k.name) + " - " + p.spacedTime(k.time) + " - " + tail;
      LastPartExact(k.name);
      assert IsSourceOf(p, s, bucket, k, LastPart(k.name), tail);
    }
    if bucket, k, l, tail :| IsSourceOf(p, s, bucket, k, l, tail) {
      LastPartUnique(k.name, l);
      BucketSplits(bucket, k.text);
      FromStringExact(p, k.text, k);
      IdOfSource(p, bucket, k);
      NameExact(p, s.name, bucket, k);
    }
  }

  // ----- rebuilding keys -----

  /** A job id as it is parsed, and behind it in brackets the extension; the last bracket may lack. */
  ghost predicate GivesJob(p: Printers, tail: string, k: ObjectKey) {
    exists job: string, rest: string :: tail == job + " (" + (Text(k.extension) + rest)
      && p.parseJobId(job) == Some(k.jobId) && (rest == "" || rest[0] == ')')
  }

  /** The thing node id ends with the name in the metadata key, and both together give the key. */
  ghost predicate Describes(p: Printers, id: string, m: string, k: ObjectKey, bucket: string, d: string, l: string, t: string, tail: string) {
    && IsBucketName(bucket) && id == bucket + "/" + k.name && id == d + l
    && m == l + " - " + (t + " - " + tail) && p.parseTime(t) == Some(k.time) && GivesJob(p, tail, k)
  }

  lemma JobText(tail: string) returns (rest: string)
    requires SplitOnce(tail, " (").Some?
    ensures var (job, extension) := JobAndExtension(tail);
      tail == job + " (" + (extension + rest) && (rest == "" || rest[0] == ')')
  {
    var (job, behind) := SplitOnce(tail, " (").value;
    match SplitOnce(behind, ")") {
      case None =>
        rest := "";
        assert behind == behind + rest;
      case Some((extension, y)) =>
        rest := ")" + y;
        assert Split(behind, ")")[0] == extension && behind == extension + rest;
    }
  }

  lemma JobGiven(p: Printers, tail: string, k: ObjectKey)
    requires var (job, extension) := JobAndExtension(tail);
      p.parseJobId(job) == Some(k.jobId) && ParseExtension(extension) == Some(k.extension)
    ensures GivesJob(p, tail, k)
  {
    hide Text, ParseExtension, Split;
    ExtensionParsed(JobAndExtension(tail).1);
    NoEmptyExtension();
    var rest := JobText(tail);
  }

  lemma NoEmptyExtension()
    ensures ParseExtension("").None?
  {
  }

  /** A key is rebuilt only from a thing node id and a metadata key that describe it. */
  lemma RebuiltOnly(p: Printers, id: string, m: string, k: ObjectKey)
    requires FromThingNodeIdAndMetadataKey(p, id, m) == Some(k)
    ensures Build(p, k.name, k.time, k.jobId, k.extension) == Some(k)
    ensures exists bucket, d, l, t, tail :: Describes(p, id, m, k, bucket, d, l, t, tail)
  {
    hide Make, IsBucketName, JobAndExtension, GivesJob, Split, ParseExtension;
    var parts := Split(m, " - ");
    ThreeParts(m, " - ");
    var (bucket, prefix) := BucketAndPrefix(id).value;
    var (job, extension) := JobAndExtension(parts[2]);
    var time, jobId, e := p.parseTime(parts[1]).value, p.parseJobId(job).value, ParseExtension(extension).value;
    var text := KeyText(p, prefix, time, jobId, e);
    MakeKeepsArguments(p, text, prefix, time, jobId, Text(e));
    MakeKeepsExtension(p, text, prefix, time, jobId, e);
    JobGiven(p, parts[2], k);
    var l := parts[0];
    assert id == id[..|id| - |l|] + l;
    assert Describes(p, id, m, k, bucket, id[..|id| - |l|], l, parts[1], parts[2]);
  }

  lemma MakeKeepsExtension(p: Printers, text: string, name: string, time: int, jobId: int, e: FileExtension)
    ensures var k := Make(p, text, name, time, jobId, Text(e)); k.Some? ==> k.value.extension == e
  {
    TextHasNoDot(e);
  }
}
