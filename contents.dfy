/** The script side of `murphy/src/murphy/contents.ts`: the speaker-name to
    voice-id map that `generatePodcastAudio` fills, and `parsePodcastContent`,
    which turns each `Name: text` line of a script into one dialogue entry. */
module Contents {
  import opened Wrappers
  import opened Seqs
  import opened Strings

  /** The property key JavaScript makes of the value `undefined`. */
  const Undefined: string := "undefined"

  /** One parsed script line, the object `{ [voiceId]: text }`. */
  datatype Dialogue = Dialogue(voiceId: string, text: string)

  /** `speakers[index]`, which is `undefined` past the end of the array. */
  function SpeakerAt(speakers: seq<string>, index: nat): string {
    if index < |speakers| then speakers[index] else Undefined
  }

  /** `voiceMap.get(name)` as a property key: `undefined` for a missing name. */
  function VoiceOf(voices: map<string, string>, name: string): string {
    if name in voices then voices[name] else Undefined
  }

  // ------------------------------------------------------------ voice map

  /** A JavaScript `Map<string, string>` from speaker name to voice id: its
      keys in insertion (iteration) order and its entries. */
  class VoiceMap {
    var names: seq<string>
    var voices: map<string, string>

    ghost predicate Valid()
      reads this
    {
      NoDuplicates(names) && forall n :: n in voices <==> n in names
    }

    constructor ()
      ensures Valid() && names == [] && voices == map[]
    {
      names := [];
      voices := map[];
    }

    /** `Map.prototype.set`: a known key keeps its place and takes the new
        value; a new key goes to the end of the iteration order. */
    method Set(name: string, voice: string)
      requires Valid()
      modifies this
      ensures Valid()
      ensures voices == old(voices)[name := voice]
      ensures names == if name in old(names) then old(names) else old(names) + [name]
    {
      if name !in names {
        names := names + [name];
      }
      voices := voices[name := voice];
    }

    /** `Map.prototype.get`, read as a property key. */
    function Get(name: string): string
      reads this
    {
      VoiceOf(voices, name)
    }
  }

  /** The keys of the map after `set` was called with `names` in order. */
  function InsertionOrder(names: seq<string>): seq<string> {
    if names == [] then []
    else
      var before := InsertionOrder(names[..|names| - 1]);
      if names[|names| - 1] in before then before else before + [names[|names| - 1]]
  }

  /** The entries of the map after `set(names[i], speakers[i])` for each `i`
      in turn. */
  function VoiceTable(names: seq<string>, speakers: seq<string>): map<string, string> {
    if names == [] then map[]
    else VoiceTable(names[..|names| - 1], speakers)[names[|names| - 1] := SpeakerAt(speakers, |names| - 1)]
  }

  /** Whether `names[i]` is the first occurrence of that name. */
  predicate FirstOccurrence(names: seq<string>, i: nat)
    requires i < |names|
  {
    names[i] !in names[..i]
  }

  /** The voice map built in `generatePodcastAudio`: `names.forEach((name,
      index) => voiceMap.set(name, speakers[index]))`. */
  method BuildVoiceMap(names: seq<string>, speakers: seq<string>) returns (voiceMap: VoiceMap)
    ensures fresh(voiceMap) && voiceMap.Valid()
    ensures voiceMap.names == InsertionOrder(names)
    ensures voiceMap.voices == VoiceTable(names, speakers)
  {
    voiceMap := new VoiceMap();
    var i := 0;
    while i < |names|
      invariant 0 <= i <= |names|
      invariant voiceMap.Valid()
      invariant voiceMap.names == InsertionOrder(names[..i])
      invariant voiceMap.voices == VoiceTable(names[..i], speakers)
    {
      assert names[..i + 1][..i] == names[..i];
      voiceMap.Set(names[i], SpeakerAt(speakers, i));
      i := i + 1;
    }
    assert names[..i] == names;
  }

  /** Iteration order is the order of first occurrence: the keys are exactly
      the first occurrences of the names, in input order, with no key twice. */
  lemma {:induction false} InsertionOrderIsFirstOccurrences(names: seq<string>)
    ensures InsertionOrder(names) ==
      Compact(seq(|names|, i requires 0 <= i < |names| => if FirstOccurrence(names, i) then Some(names[i]) else None))
    ensures NoDuplicates(InsertionOrder(names))
    ensures forall n :: n in InsertionOrder(names) <==> n in names
  {
    var firsts := seq(|names|, i requires 0 <= i < |names| => if FirstOccurrence(names, i) then Some(names[i]) else None);
    if names != [] {
      var init := names[..|names| - 1];
      var last := names[|names| - 1];
      InsertionOrderIsFirstOccurrences(init);
      var firsts0 := seq(|init|, i requires 0 <= i < |init| => if FirstOccurrence(init, i) then Some(init[i]) else None);
      assert firsts[..|firsts| - 1] == firsts0 by {
        forall i | 0 <= i < |init| ensures firsts[i] == firsts0[i] {
          assert names[..i] == init[..i];
        }
      }
      assert names == init + [last];
      assert firsts[|firsts| - 1] == if last in init then None else Some(last);
    }
  }

  /** Every name maps to a voice, and a name takes the voice given with its
      last occurrence, because `set` overwrites. */
  lemma {:induction false} VoiceTableLastWins(names: seq<string>, speakers: seq<string>)
    ensures forall n :: n in VoiceTable(names, speakers) <==> n in names
    ensures forall i :: 0 <= i < |names| && names[i] !in names[i + 1..] ==>
      VoiceTable(names, speakers)[names[i]] == SpeakerAt(speakers, i)
  {
    if names != [] {
      var init := names[..|names| - 1];
      VoiceTableLastWins(init, speakers);
      assert names == init + [names[|names| - 1]];
      forall i | 0 <= i < |names| - 1 && names[i] !in names[i + 1..]
        ensures VoiceTable(names, speakers)[names[i]] == SpeakerAt(speakers, i)
      {
        assert names[|names| - 1] in names[i + 1..];
        assert init[i + 1..] <= names[i + 1..];
        assert init[i] == names[i];
        assert names[i] !in init[i + 1..];
      }
    }
  }

  /** In a list without duplicates, no element occurs again later. */
  lemma NotLater(names: seq<string>, i: nat)
    requires NoDuplicates(names) && i < |names|
    ensures names[i] !in names[i + 1..]
  {
  }

  /** With distinct names, the map keeps their order and pairs `names[i]`
      with `speakers[i]`. */
  lemma DistinctNamesKeepOrderAndVoices(names: seq<string>, speakers: seq<string>)
    requires NoDuplicates(names)
    ensures InsertionOrder(names) == names
    ensures forall i :: 0 <= i < |names| ==>
      names[i] in VoiceTable(names, speakers) && VoiceTable(names, speakers)[names[i]] == SpeakerAt(speakers, i)
  {
    InsertionOrderIsFirstOccurrences(names);
    var firsts := seq(|names|, i requires 0 <= i < |names| => if FirstOccurrence(names, i) then Some(names[i]) else None);
    assert firsts == seq(|names|, i requires 0 <= i < |names| => Some(names[i]));
    CompactOfSomes(names);
    VoiceTableLastWins(names, speakers);
    forall i | 0 <= i < |names| ensures names[i] !in names[i + 1..] {
      NotLater(names, i);
    }
  }

  // -------------------------------------------------------------- parsing

  /** Whether `line.startsWith(name + ":")`. */
  predicate Matches(line: string, name: string) {
    StartsWith(line, name + ":")
  }

  /** The position of the first name, in iteration order, that prefixes
      `line` with a colon. */
  function FirstMatch(line: string, names: seq<string>): (r: Option<nat>)
    ensures r.Some? ==> r.value < |names| && Matches(line, names[r.value])
    ensures r.Some? ==> forall j :: 0 <= j < r.value ==> !Matches(line, names[j])
    ensures r.None? ==> forall j :: 0 <= j < |names| ==> !Matches(line, names[j])
  {
    if names == [] then None
    else if Matches(line, names[0]) then Some(0)
    else
      match FirstMatch(line, names[1..])
      case None => None
      case Some(j) => Some(j + 1)
  }

  /** The entry one script line produces: the text after the colon of the
      first matching name, trimmed, under that name's voice; nothing for a
      line that no name matches. */
  function ParseLine(line: string, names: seq<string>, voices: map<string, string>): Option<Dialogue> {
    match FirstMatch(line, names)
    case None => None
    case Some(j) => Some(Dialogue(VoiceOf(voices, names[j]), Trim(line[|names[j]| + 1..])))
  }

  function TrimEach(pieces: seq<string>): seq<string> {
    seq(|pieces|, i requires 0 <= i < |pieces| => Trim(pieces[i]))
  }

  /** The normalised script: runs of spaces collapsed, split on line feeds,
      each line trimmed, empty lines dropped. */
  function ScriptLines(content: string): seq<string> {
    Filter((line: string) => |line| > 0, TrimEach(Split(CollapseSpaces(content), '\n')))
  }

  function ParseEach(lines: seq<string>, names: seq<string>, voices: map<string, string>): seq<Option<Dialogue>> {
    seq(|lines|, i requires 0 <= i < |lines| => ParseLine(lines[i], names, voices))
  }

  /** The entries of the lines, in line order. */
  function ParseLines(lines: seq<string>, names: seq<string>, voices: map<string, string>): seq<Dialogue> {
    Compact(ParseEach(lines, names, voices))
  }

  /** What `parsePodcastContent` returns for a script and a voice map with
      keys `names` (in iteration order) and entries `voices`. */
  function ParseScript(content: string, names: seq<string>, voices: map<string, string>): (r: seq<Dialogue>)
    ensures |r| <= |ScriptLines(content)|
  {
    ParseLines(ScriptLines(content), names, voices)
  }

  /** A single line contributes its entry, if any. */
  lemma ParseLinesSingle(line: string, names: seq<string>, voices: map<string, string>)
    ensures ParseLines([line], names, voices) == if ParseLine(line, names, voices).Some? then [ParseLine(line, names, voices).value] else []
  {
    var each := ParseEach([line], names, voices);
    assert each == [ParseLine(line, names, voices)];
    assert each[..0] == [];
  }

  lemma ParseEachAppend(a: seq<string>, b: seq<string>, names: seq<string>, voices: map<string, string>)
    ensures ParseEach(a + b, names, voices) == ParseEach(a, names, voices) + ParseEach(b, names, voices)
  {
    var ea, eb := ParseEach(a, names, voices), ParseEach(b, names, voices);
    var eab := ParseEach(a + b, names, voices);
    assert |eab| == |ea + eb|;
    forall i | 0 <= i < |eab| ensures eab[i] == (ea + eb)[i] {
      if i < |a| {
        assert (a + b)[i] == a[i];
      } else {
        assert (a + b)[i] == b[i - |a|];
      }
    }
  }

  /** The entries of a script are the entries of its parts: a line that emits
      nothing does not shift the entries after it. */
  lemma ParseLinesAppend(a: seq<string>, b: seq<string>, names: seq<string>, voices: map<string, string>)
    ensures ParseLines(a + b, names, voices) == ParseLines(a, names, voices) + ParseLines(b, names, voices)
  {
    ParseEachAppend(a, b, names, voices);
    CompactAppend(ParseEach(a, names, voices), ParseEach(b, names, voices));
  }

  /** The entries of the first `i + 1` lines are those of the first `i`
      lines followed by the entry of line `i`, if any. */
  lemma ParseLinesSnoc(lines: seq<string>, i: nat, names: seq<string>, voices: map<string, string>)
    requires i < |lines|
    ensures ParseLines(lines[..i + 1], names, voices) ==
      ParseLines(lines[..i], names, voices) +
      (if ParseLine(lines[i], names, voices).Some? then [ParseLine(lines[i], names, voices).value] else [])
  {
    PrefixSnoc(lines, i);
    ParseLinesAppend(lines[..i], [lines[i]], names, voices);
    ParseLinesSingle(lines[i], names, voices);
  }

  /** Every entry comes from one line: there are at most as many entries
      as lines, and exactly as many when every line starts with a name. */
  lemma ParseLinesCount(lines: seq<string>, names: seq<string>, voices: map<string, string>)
    ensures |ParseLines(lines, names, voices)| <= |lines|
    ensures (forall i :: 0 <= i < |lines| ==> FirstMatch(lines[i], names).Some?) ==>
      |ParseLines(lines, names, voices)| == |lines|
  {
    if forall i :: 0 <= i < |lines| ==> FirstMatch(lines[i], names).Some? {
      CompactAllSome(ParseEach(lines, names, voices));
    }
  }

  /** A line that no name starts emits nothing: it may be removed from the
      script without changing the entries. */
  lemma UnmatchedLineEmitsNothing(a: seq<string>, line: string, b: seq<string>, names: seq<string>, voices: map<string, string>)
    requires forall j :: 0 <= j < |names| ==> !Matches(line, names[j])
    ensures ParseLines(a + [line] + b, names, voices) == ParseLines(a + b, names, voices)
  {
    ParseLinesAppend(a + [line], b, names, voices);
    ParseLinesAppend(a, [line], names, voices);
    ParseLinesSingle(line, names, voices);
    ParseLinesAppend(a, b, names, voices);
  }

  /** Trimming pieces without two spaces in a row gives trimmed lines
      without two spaces in a row. */
  lemma TrimEachNormalised(pieces: seq<string>)
    requires forall k :: 0 <= k < |pieces| ==> NoDoubleSpace(pieces[k])
    ensures forall line :: line in TrimEach(pieces) ==> Trim(line) == line && NoDoubleSpace(line)
  {
    var trimmed := TrimEach(pieces);
    forall line | line in trimmed ensures Trim(line) == line && NoDoubleSpace(line) {
      var k :| 0 <= k < |trimmed| && trimmed[k] == line;
      TrimIdempotent(pieces[k]);
      NoDoubleSpaceTrim(pieces[k]);
    }
  }

  /** Each line of the normalised script is non-empty, trimmed, and has no
      two spaces in a row. */
  lemma ScriptLinesNormalised(content: string)
    ensures forall line :: line in ScriptLines(content) ==>
      |line| > 0 && Trim(line) == line && NoDoubleSpace(line)
  {
    var collapsed := CollapseSpaces(content);
    var pieces := Split(collapsed, '\n');
    NoDoubleSpaceSplit(collapsed, '\n');
    TrimEachNormalised(pieces);
    var keep := (line: string) => |line| > 0;
    assert ScriptLines(content) == Filter(keep, TrimEach(pieces));
  }

  /** The text of the entry of a line without two spaces in a row has no two
      spaces in a row either. */
  lemma ParseLineSingleSpaced(line: string, names: seq<string>, voices: map<string, string>)
    requires NoDoubleSpace(line)
    ensures ParseLine(line, names, voices).Some? ==> NoDoubleSpace(ParseLine(line, names, voices).value.text)
  {
    var m := FirstMatch(line, names);
    if m.Some? {
      var n := names[m.value];
      NoDoubleSpaceSlice(line, |n| + 1, |line|);
      NoDoubleSpaceTrim(line[|n| + 1..]);
    }
  }

  lemma ParseLinesSingleSpaced(lines: seq<string>, names: seq<string>, voices: map<string, string>)
    requires forall line :: line in lines ==> NoDoubleSpace(line)
    ensures forall d :: d in ParseLines(lines, names, voices) ==> NoDoubleSpace(d.text)
  {
    var each := ParseEach(lines, names, voices);
    forall d: Dialogue | d in Compact(each) ensures NoDoubleSpace(d.text) {
      var i :| 0 <= i < |each| && each[i] == Some(d);
      assert lines[i] in lines;
      ParseLineSingleSpaced(lines[i], names, voices);
    }
  }

  /** No emitted text contains two spaces in a row: the script's runs of
      spaces are collapsed before it is cut into lines, and slicing and
      trimming cannot join two spaces. */
  lemma ParsedTextsSingleSpaced(content: string, names: seq<string>, voices: map<string, string>)
    ensures forall d :: d in ParseScript(content, names, voices) ==> NoDoubleSpace(d.text)
  {
    ScriptLinesNormalised(content);
    ParseLinesSingleSpaced(ScriptLines(content), names, voices);
  }

  /** A line that some name prefixes with a colon has a first match. */
  lemma FirstMatchFinds(line: string, names: seq<string>, n: string)
    requires n in names && Matches(line, n)
    ensures FirstMatch(line, names).Some?
  {
    var k :| 0 <= k < |names| && names[k] == n;
    assert Matches(line, names[k]);
  }

  /** Two names without a colon cannot both prefix a line with a colon
      unless they are the same name. */
  lemma ColonFreeMatchUnique(line: string, a: string, b: string)
    requires ':' !in a && ':' !in b
    requires Matches(line, a) && Matches(line, b)
    ensures a == b
  {
    assert line == a + [':'] + line[|a| + 1..];
    assert line == b + [':'] + line[|b| + 1..];
    IndexOfAfter(a, ':', line[|a| + 1..]);
    IndexOfAfter(b, ':', line[|b| + 1..]);
    assert a == line[..|a|];
  }

  /** When no name contains a colon, the entry of a line does not depend on
      the order in which the map's keys are visited. */
  lemma ParseLineOrderFree(line: string, names1: seq<string>, names2: seq<string>, voices: map<string, string>)
    requires forall n :: n in names1 <==> n in names2
    requires forall n :: n in names1 ==> ':' !in n
    ensures ParseLine(line, names1, voices) == ParseLine(line, names2, voices)
  {
    var m1, m2 := FirstMatch(line, names1), FirstMatch(line, names2);
    if m1.Some? {
      var n1 := names1[m1.value];
      assert n1 in names1;
      FirstMatchFinds(line, names2, n1);
      ColonFreeMatchUnique(line, n1, names2[m2.value]);
    } else if m2.Some? {
      var n2 := names2[m2.value];
      assert n2 in names2;
      FirstMatchFinds(line, names1, n2);
    }
  }

  /** When no name contains a colon, the parse of a script does not depend on
      the map's iteration order. */
  lemma ParseScriptOrderFree(content: string, names1: seq<string>, names2: seq<string>, voices: map<string, string>)
    requires forall n :: n in names1 <==> n in names2
    requires forall n :: n in names1 ==> ':' !in n
    ensures ParseScript(content, names1, voices) == ParseScript(content, names2, voices)
  {
    var lines := ScriptLines(content);
    forall i | 0 <= i < |lines|
      ensures ParseEach(lines, names1, voices)[i] == ParseEach(lines, names2, voices)[i]
    {
      ParseLineOrderFree(lines[i], names1, names2, voices);
    }
    assert ParseEach(lines, names1, voices) == ParseEach(lines, names2, voices);
  }

  /** The entry of a line whose first matching name is `names[j]`. */
  lemma ParseLineAt(line: string, names: seq<string>, voices: map<string, string>, j: nat)
    requires j < |names| && Matches(line, names[j])
    requires forall k {:trigger Matches(line, names[k])} :: 0 <= k < j ==> !Matches(line, names[k])
    ensures ParseLine(line, names, voices) == Some(Dialogue(VoiceOf(voices, names[j]), Trim(line[|names[j]| + 1..])))
  {
    var m := FirstMatch(line, names);
    assert m.Some? && m.value == j;
  }

  /** When the names are exactly the map's keys, the name a line matches
      always has an entry, so `voiceMap.get(name)!` never reads a missing
      key: every parsed voice is one of the map's values. */
  lemma ParsedVoicesFromMap(lines: seq<string>, names: seq<string>, voices: map<string, string>)
    requires forall n :: n in voices <==> n in names
    ensures forall d :: d in ParseLines(lines, names, voices) ==> d.voiceId in voices.Values
  {
    var each := ParseEach(lines, names, voices);
    forall d | d in ParseLines(lines, names, voices)
      ensures d.voiceId in voices.Values
    {
      assert Some(d) in each;
      var i :| 0 <= i < |lines| && each[i] == Some(d);
      var j := FirstMatch(lines[i], names).value;
      assert names[j] in voices;
      assert d.voiceId == voices[names[j]];
    }
  }

  /** `parsePodcastContent`: normalise the script, then emit the entries of
      its lines. */
  method ParsePodcastContent(content: string, voiceMap: VoiceMap) returns (result: seq<Dialogue>)
    requires voiceMap.Valid()
    ensures result == ParseScript(content, voiceMap.names, voiceMap.voices)
    ensures forall k :: 0 <= k < |result| ==> result[k].voiceId in voiceMap.voices.Values
  {
    var lines := ScriptLines(content);
    result := EmitEntries(lines, voiceMap);
    ParsedVoicesFromMap(lines, voiceMap.names, voiceMap.voices);
  }

  /** The loop of `parsePodcastContent`: for each line take the first name in
      iteration order whose `name + ":"` starts it, push `{ [voice]: text
      after the colon, trimmed }` and stop looking. */
  method EmitEntries(lines: seq<string>, voiceMap: VoiceMap) returns (result: seq<Dialogue>)
    requires voiceMap.Valid()
    ensures result == ParseLines(lines, voiceMap.names, voiceMap.voices)
  {
    var names := voiceMap.names;
    ghost var voices := voiceMap.voices;
    result := [];
    var i := 0;
    while i < |lines|
      invariant 0 <= i <= |lines|
      invariant result == ParseLines(lines[..i], names, voices)
    {
      var line := lines[i];
      ParseLinesSnoc(lines, i, names, voices);
      ghost var before := result;
      var j := 0;
      while j < |names|
        invariant 0 <= j <= |names|
        invariant forall k {:trigger Matches(line, names[k])} :: 0 <= k < j ==> !Matches(line, names[k])
        invariant result == before
      {
        var name := names[j];
        if StartsWith(line, name + ":") {
          ParseLineAt(line, names, voices, j);
          result := result + [Dialogue(voiceMap.Get(name), Trim(line[|name| + 1..]))];
          break;
        }
        j := j + 1;
      }
      i := i + 1;
    }
    assert lines[..|lines|] == lines;
  }

  /** `generatePodcastAudio` as far as the source goes: it builds the voice
      map and parses the script with it; the parsed entries are the model's
      result (the source drops them and returns nothing). */
  method GeneratePodcastAudio(content: string, names: seq<string>, speakers: seq<string>)
    returns (parsedContent: seq<Dialogue>)
    ensures parsedContent == ParseScript(content, InsertionOrder(names), VoiceTable(names, speakers))
  {
    var voiceMap := BuildVoiceMap(names, speakers);
    parsedContent := ParsePodcastContent(content, voiceMap);
  }
}
