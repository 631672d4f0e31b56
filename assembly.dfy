/** The audio-assembly bookkeeping of `generateAudio` in
    `murphy/src/murphy/contents.ts`: one clip file per dialogue entry, the
    failed clips dropped in index order, an ffmpeg concat manifest listing
    the survivors, and the best-effort cleanup after a successful
    concatenation. The speech service, the download and ffmpeg itself are
    parameters; the file system is the `FileSystem` object below. */
module Assembly {
  import opened Wrappers
  import opened Seqs
  import opened Strings
  import opened Contents

  // ------------------------------------------------------------ file system

  /** What a file holds: downloaded audio bytes or the text of a manifest. */
  datatype FileData = Audio(bytes: seq<bv8>) | Text(text: string)

  /** The part of the file system `generateAudio` touches. `unwritable`
      holds the paths where `writeFileSync` throws and `unremovable` those
      where `unlinkSync` throws (permissions, a directory in the way, a file
      held open); neither set changes while the call runs, and the two are
      independent, so a file written in this run may still refuse to go. */
  class FileSystem {
    var files: map<string, FileData>
    const unwritable: set<string>
    const unremovable: set<string>

    constructor (files0: map<string, FileData>, unwritable0: set<string>, unremovable0: set<string>)
      ensures files == files0 && unwritable == unwritable0 && unremovable == unremovable0
    {
      files := files0;
      unwritable := unwritable0;
      unremovable := unremovable0;
    }

    /** `fs.writeFileSync`: creates or overwrites the file, unless it throws. */
    method WriteFile(path: string, data: FileData) returns (ok: bool)
      modifies this
      ensures ok == (path !in unwritable)
      ensures files == if ok then old(files)[path := data] else old(files)
    {
      ok := path !in unwritable;
      if ok {
        files := files[path := data];
      }
    }

    /** `fs.unlinkSync`: removes the file; throws when it is missing or the
        path is unremovable, and then nothing changes. */
    method Unlink(path: string) returns (ok: bool)
      modifies this
      ensures ok == (path in old(files) && path !in unremovable)
      ensures files == if ok then old(files) - {path} else old(files)
    {
      ok := path in files && path !in unremovable;
      if ok {
        files := files - {path};
      }
    }
  }

  // ------------------------------------------------------------ file names

  /** `path.join(os.tmpdir(), `part${idx}.mp3`)`. */
  function ClipPath(tmpdir: string, idx: nat): (r: string)
    ensures StartsWith(r, tmpdir + "/part") && EndsWith(r, ".mp3")
  {
    tmpdir + "/part" + NatToString(idx) + ".mp3"
  }

  /** `path.join(tmpDir, `ffmpeg_inputs_${Date.now()}.txt`)`. */
  function ManifestPath(tmpdir: string, now: nat): string {
    tmpdir + "/ffmpeg_inputs_" + NatToString(now) + ".txt"
  }

  /** Distinct indices get distinct clip files. */
  lemma ClipPathInjective(tmpdir: string, i: nat, j: nat)
    requires ClipPath(tmpdir, i) == ClipPath(tmpdir, j)
    ensures i == j
  {
    var a, b := NatToString(i), NatToString(j);
    var start := |tmpdir| + 5;
    assert |a| == |b| by {
      assert |ClipPath(tmpdir, i)| == start + |a| + 4;
      assert |ClipPath(tmpdir, j)| == start + |b| + 4;
    }
    assert ClipPath(tmpdir, i)[start..start + |a|] == a;
    assert ClipPath(tmpdir, j)[start..start + |b|] == b;
    NatToStringInjective(i, j);
  }

  /** The manifest never overwrites a clip. */
  lemma ManifestIsNotClip(tmpdir: string, now: nat, idx: nat)
    ensures ManifestPath(tmpdir, now) != ClipPath(tmpdir, idx)
  {
    assert ManifestPath(tmpdir, now)[|tmpdir| + 1] == 'f';
    assert ClipPath(tmpdir, idx)[|tmpdir| + 1] == 'p';
  }

  // --------------------------------------------------------------- fan-out

  /** The body posted to the speech service for one entry. */
  datatype SpeechRequest = SpeechRequest(text: string, voiceId: string, style: string)

  const Style: string := "Conversational"

  /** `{ text, voiceId: speaker, style: "Conversational" }` for the entry's
      single `[speaker, text]` pair. */
  function RequestOf(dialogue: Dialogue): SpeechRequest {
    SpeechRequest(dialogue.text, dialogue.voiceId, Style)
  }

  /** The result of the task for index `idx`: the clip's path when the
      speech service and the download both succeed (`fetch` gives the bytes)
      and the write succeeds, and `null` otherwise. */
  function ClipResult(conversations: seq<Dialogue>, idx: nat, tmpdir: string,
                      fetch: (nat, SpeechRequest) -> Option<seq<bv8>>, unwritable: set<string>): Option<string>
    requires idx < |conversations|
  {
    if fetch(idx, RequestOf(conversations[idx])).Some? && ClipPath(tmpdir, idx) !in unwritable
    then Some(ClipPath(tmpdir, idx))
    else None
  }

  /** The array `Promise.all` yields: the task results by index. */
  function ClipResults(conversations: seq<Dialogue>, tmpdir: string,
                       fetch: (nat, SpeechRequest) -> Option<seq<bv8>>, unwritable: set<string>): (r: seq<Option<string>>)
    ensures |r| == |conversations|
  {
    seq(|conversations|, i requires 0 <= i < |conversations| => ClipResult(conversations, i, tmpdir, fetch, unwritable))
  }

  /** The files after the tasks for the first `n` entries have run. */
  function Saved(files: map<string, FileData>, conversations: seq<Dialogue>, n: nat, tmpdir: string,
                 fetch: (nat, SpeechRequest) -> Option<seq<bv8>>, unwritable: set<string>): (r: map<string, FileData>)
    requires n <= |conversations|
    ensures forall p :: p in files ==> p in r
  {
    if n == 0 then files
    else
      var before := Saved(files, conversations, n - 1, tmpdir, fetch, unwritable);
      var path := ClipPath(tmpdir, n - 1);
      match fetch(n - 1, RequestOf(conversations[n - 1]))
      case Some(bytes) => if path !in unwritable then before[path := Audio(bytes)] else before
      case None => before
  }

  /** After the fan-out, each clip whose task succeeded holds the bytes
      fetched for its own entry: no later task overwrites it. */
  lemma {:induction false} SavedClips(files: map<string, FileData>, conversations: seq<Dialogue>, n: nat, tmpdir: string,
                                      fetch: (nat, SpeechRequest) -> Option<seq<bv8>>, unwritable: set<string>)
    requires n <= |conversations|
    ensures forall i :: 0 <= i < n && ClipResult(conversations, i, tmpdir, fetch, unwritable).Some? ==>
      var saved := Saved(files, conversations, n, tmpdir, fetch, unwritable);
      ClipPath(tmpdir, i) in saved &&
      saved[ClipPath(tmpdir, i)] == Audio(fetch(i, RequestOf(conversations[i])).value)
  {
    if n > 0 {
      SavedClips(files, conversations, n - 1, tmpdir, fetch, unwritable);
      forall i | 0 <= i < n - 1 && ClipResult(conversations, i, tmpdir, fetch, unwritable).Some?
        ensures ClipPath(tmpdir, i) != ClipPath(tmpdir, n - 1)
      {
        if ClipPath(tmpdir, i) == ClipPath(tmpdir, n - 1) {
          ClipPathInjective(tmpdir, i, n - 1);
        }
      }
    }
  }

  /** The fan-out touches no file but the clips of its entries. */
  lemma {:induction false} SavedOthersUnchanged(files: map<string, FileData>, conversations: seq<Dialogue>, n: nat, tmpdir: string,
                                                fetch: (nat, SpeechRequest) -> Option<seq<bv8>>, unwritable: set<string>, p: string)
    requires n <= |conversations|
    requires forall i :: 0 <= i < n ==> p != ClipPath(tmpdir, i)
    ensures p in Saved(files, conversations, n, tmpdir, fetch, unwritable) <==> p in files
    ensures p in files ==> Saved(files, conversations, n, tmpdir, fetch, unwritable)[p] == files[p]
  {
    if n > 0 {
      SavedOthersUnchanged(files, conversations, n - 1, tmpdir, fetch, unwritable, p);
    }
  }

  /** A failed task leaves its clip path as it found it: a `part<i>.mp3`
      left over from an earlier run keeps its old contents, and no clip
      appears where there was none. */
  lemma {:induction false} SavedFailedClipsKept(files: map<string, FileData>, conversations: seq<Dialogue>, n: nat, tmpdir: string,
                                                fetch: (nat, SpeechRequest) -> Option<seq<bv8>>, unwritable: set<string>)
    requires n <= |conversations|
    ensures forall i :: 0 <= i < n && ClipResult(conversations, i, tmpdir, fetch, unwritable).None? ==>
      var saved := Saved(files, conversations, n, tmpdir, fetch, unwritable);
      (ClipPath(tmpdir, i) in saved <==> ClipPath(tmpdir, i) in files) &&
      (ClipPath(tmpdir, i) in files ==> saved[ClipPath(tmpdir, i)] == files[ClipPath(tmpdir, i)])
  {
    if n > 0 {
      SavedFailedClipsKept(files, conversations, n - 1, tmpdir, fetch, unwritable);
      var last := ClipPath(tmpdir, n - 1);
      forall i | 0 <= i < n - 1
        ensures last != ClipPath(tmpdir, i)
      {
        if last == ClipPath(tmpdir, i) {
          ClipPathInjective(tmpdir, i, n - 1);
        }
      }
      SavedOthersUnchanged(files, conversations, n - 1, tmpdir, fetch, unwritable, last);
    }
  }

  /** The clip list: `(await Promise.all(promises)).filter(Boolean)`. A
      clip path is never empty, so dropping the falsy entries is dropping
      the `null`s. */
  function Survivors(results: seq<Option<string>>): (r: seq<string>)
    ensures |r| <= |results|
    ensures forall p :: p in r <==> Some(p) in results
  {
    Compact(results)
  }

  /** The surviving clips are exactly the clips whose task succeeded. */
  lemma SurvivorsAreSucceededClips(conversations: seq<Dialogue>, tmpdir: string,
                                   fetch: (nat, SpeechRequest) -> Option<seq<bv8>>, unwritable: set<string>, i: nat)
    requires i < |conversations|
    ensures ClipPath(tmpdir, i) in Survivors(ClipResults(conversations, tmpdir, fetch, unwritable)) <==>
      ClipResult(conversations, i, tmpdir, fetch, unwritable).Some?
  {
    var results := ClipResults(conversations, tmpdir, fetch, unwritable);
    if ClipPath(tmpdir, i) in Survivors(results) {
      var k :| 0 <= k < |results| && results[k] == Some(ClipPath(tmpdir, i));
      ClipPathInjective(tmpdir, i, k);
    } else {
      assert results[i] == ClipResult(conversations, i, tmpdir, fetch, unwritable);
    }
  }

  /** No clip is listed twice, because every index has its own clip file. */
  lemma SurvivorsDistinct(conversations: seq<Dialogue>, tmpdir: string,
                          fetch: (nat, SpeechRequest) -> Option<seq<bv8>>, unwritable: set<string>)
    ensures NoDuplicates(Survivors(ClipResults(conversations, tmpdir, fetch, unwritable)))
  {
    var results := ClipResults(conversations, tmpdir, fetch, unwritable);
    forall i, j | 0 <= i < j < |results| && results[i].Some? && results[j].Some?
      ensures results[i] != results[j]
    {
      if results[i] == results[j] {
        ClipPathInjective(tmpdir, i, j);
      }
    }
    CompactNoDuplicates(results);
  }

  /** The clip list is in ascending index order, whatever order the tasks
      finished in: `Promise.all` keeps results by index. */
  lemma SurvivorsInIndexOrder(conversations: seq<Dialogue>, tmpdir: string,
                              fetch: (nat, SpeechRequest) -> Option<seq<bv8>>, unwritable: set<string>,
                              a: nat, b: nat, i: nat, j: nat)
    requires a < b < |Survivors(ClipResults(conversations, tmpdir, fetch, unwritable))|
    requires Survivors(ClipResults(conversations, tmpdir, fetch, unwritable))[a] == ClipPath(tmpdir, i)
    requires Survivors(ClipResults(conversations, tmpdir, fetch, unwritable))[b] == ClipPath(tmpdir, j)
    ensures i < j
  {
    var results := ClipResults(conversations, tmpdir, fetch, unwritable);
    CompactByIndex(results);
    var idx := SomeIndices(results);
    ClipPathInjective(tmpdir, i, idx[a]);
    ClipPathInjective(tmpdir, j, idx[b]);
  }

  /** The fan-out: for each entry, request speech, download it and save it
      as the entry's clip; a failure anywhere in a task yields `null` for
      that index. */
  method SaveClips(fs: FileSystem, conversations: seq<Dialogue>, tmpdir: string,
                   fetch: (nat, SpeechRequest) -> Option<seq<bv8>>) returns (results: seq<Option<string>>)
    modifies fs
    ensures results == ClipResults(conversations, tmpdir, fetch, fs.unwritable)
    ensures fs.files == Saved(old(fs.files), conversations, |conversations|, tmpdir, fetch, fs.unwritable)
  {
    results := [];
    var i := 0;
    while i < |conversations|
      invariant 0 <= i <= |conversations|
      invariant |results| == i
      invariant forall k :: 0 <= k < i ==> results[k] == ClipResult(conversations, k, tmpdir, fetch, fs.unwritable)
      invariant fs.files == Saved(old(fs.files), conversations, i, tmpdir, fetch, fs.unwritable)
    {
      var audio := fetch(i, RequestOf(conversations[i]));
      var result: Option<string> := None;
      if audio.Some? {
        var filename := ClipPath(tmpdir, i);
        var ok := fs.WriteFile(filename, Audio(audio.value));
        if ok {
          result := Some(filename);
        }
      }
      results := results + [result];
      i := i + 1;
    }
  }

  // -------------------------------------------------------------- manifest

  /** `file '<absolute path>'` for each clip. */
  function ManifestLines(clips: seq<string>, resolve: string -> string): seq<string> {
    seq(|clips|, i requires 0 <= i < |clips| => "file '" + resolve(clips[i]) + "'")
  }

  /** The text of the concat manifest: its lines joined by line feeds. */
  function ManifestText(clips: seq<string>, resolve: string -> string): string {
    Join(ManifestLines(clips, resolve), '\n')
  }

  /** The manifest is empty for no clips (it is still written), has no
      trailing line feed, and reads back as one line per clip in clip order
      when no resolved path contains a line feed. */
  lemma {:induction false} ManifestShape(clips: seq<string>, resolve: string -> string)
    ensures clips == [] ==> ManifestText(clips, resolve) == ""
    ensures clips != [] ==>
      |ManifestText(clips, resolve)| > 0 && ManifestText(clips, resolve)[|ManifestText(clips, resolve)| - 1] == '\''
    ensures (clips != [] && forall i :: 0 <= i < |clips| ==> '\n' !in resolve(clips[i])) ==>
      Split(ManifestText(clips, resolve), '\n') == ManifestLines(clips, resolve)
  {
    var lines := ManifestLines(clips, resolve);
    if clips != [] {
      JoinEndsWithLast(lines, '\n');
      if forall i :: 0 <= i < |clips| ==> '\n' !in resolve(clips[i]) {
        forall k | 0 <= k < |lines| ensures '\n' !in lines[k] {
          assert lines[k] == "file '" + resolve(clips[k]) + "'";
        }
        SplitJoin(lines, '\n');
      }
    }
  }

  /** A join of lines that each end in a quote ends in a quote. */
  lemma {:induction false} JoinEndsWithLast(lines: seq<string>, c: char)
    requires |lines| >= 1 && |lines[|lines| - 1]| > 0
    ensures |Join(lines, c)| > 0 && Join(lines, c)[|Join(lines, c)| - 1] == lines[|lines| - 1][|lines[|lines| - 1]| - 1]
  {
    if |lines| > 1 {
      JoinEndsWithLast(lines[1..], c);
    }
  }

  // -------------------------------------------------- concatenate, clean up

  const OutputFile: string := "final.mp3"

  /** Why the promise rejects: the manifest write threw (the error of
      `writeFileSync` is not modelled), or an `Error` with a message. */
  datatype Rejection = WriteFailed(path: string) | Error(message: string)

  datatype Outcome = Resolved(output: string) | Rejected(reason: Rejection)

  const BinaryNotFoundMessage: string := "ffmpeg binary not found."

  /** `!ffmpegPath`: no binary, or the empty path. */
  predicate MissingBinary(ffmpeg: Option<string>) {
    ffmpeg.None? || ffmpeg.value == ""
  }

  /** The arguments `execFile` passes to ffmpeg. */
  function FfmpegArgs(listFile: string): seq<string> {
    ["-f", "concat", "-safe", "0", "-i", listFile, "-c", "copy", OutputFile]
  }

  /** The files left after `unlinkSync` was tried on each path in turn, each
      failure caught and the loop carried on. */
  function Unlinked(files: map<string, FileData>, paths: seq<string>, unremovable: set<string>): (r: map<string, FileData>)
    ensures forall p :: p in r ==> p in files
  {
    if paths == [] then files
    else
      var before := Unlinked(files, paths[..|paths| - 1], unremovable);
      var p := paths[|paths| - 1];
      if p in before && p !in unremovable then before - {p} else before
  }

  /** Best-effort deletion removes every listed path that can be removed,
      whatever failed before it, and touches nothing else. */
  lemma {:induction false} UnlinkedRemovesExactly(files: map<string, FileData>, paths: seq<string>, unremovable: set<string>)
    ensures forall p :: p in Unlinked(files, paths, unremovable) <==> p in files && !(p in paths && p !in unremovable)
    ensures forall p :: p in Unlinked(files, paths, unremovable) ==> Unlinked(files, paths, unremovable)[p] == files[p]
  {
    if paths != [] {
      var init := paths[..|paths| - 1];
      UnlinkedRemovesExactly(files, init, unremovable);
      assert paths == init + [paths[|paths| - 1]];
    }
  }

  /** The promise's outcome and the files it leaves, given the clip list,
      the files present, the ffmpeg binary and what `execFile` reports for a
      binary and its arguments (`None` for success). */
  function AssembleResult(files: map<string, FileData>, unwritable: set<string>, unremovable: set<string>,
                          clips: seq<string>, tmpdir: string, now: nat, resolve: string -> string,
                          ffmpeg: Option<string>, exec: (string, seq<string>) -> Option<string>)
    : (Outcome, map<string, FileData>)
  {
    var listFile := ManifestPath(tmpdir, now);
    if listFile in unwritable then (Rejected(WriteFailed(listFile)), files)
    else
      var written := files[listFile := Text(ManifestText(clips, resolve))];
      if MissingBinary(ffmpeg) then (Rejected(Error(BinaryNotFoundMessage)), written)
      else
        match exec(ffmpeg.value, FfmpegArgs(listFile))
        case Some(error) => (Rejected(Error(error)), written)
        case None => (Resolved(OutputFile), Unlinked(written, clips + [listFile], unremovable))
  }

  /** When the manifest cannot be written the promise rejects before ffmpeg
      is looked for, and no file changes. */
  lemma ManifestWriteFailureChangesNothing(files: map<string, FileData>, unwritable: set<string>, unremovable: set<string>,
                                           clips: seq<string>, tmpdir: string, now: nat, resolve: string -> string,
                                           ffmpeg: Option<string>, exec: (string, seq<string>) -> Option<string>)
    requires ManifestPath(tmpdir, now) in unwritable
    ensures AssembleResult(files, unwritable, unremovable, clips, tmpdir, now, resolve, ffmpeg, exec) ==
      (Rejected(WriteFailed(ManifestPath(tmpdir, now))), files)
  {
  }

  /** Without an ffmpeg binary the promise rejects with "ffmpeg binary not
      found." and the manifest it has written stays behind. */
  lemma MissingBinaryKeepsManifest(files: map<string, FileData>, unwritable: set<string>, unremovable: set<string>,
                                   clips: seq<string>, tmpdir: string, now: nat, resolve: string -> string,
                                   ffmpeg: Option<string>, exec: (string, seq<string>) -> Option<string>)
    requires ManifestPath(tmpdir, now) !in unwritable
    requires ffmpeg == None || ffmpeg == Some("")
    ensures var (outcome, after) := AssembleResult(files, unwritable, unremovable, clips, tmpdir, now, resolve, ffmpeg, exec);
      outcome == Rejected(Error("ffmpeg binary not found.")) &&
      after == files[ManifestPath(tmpdir, now) := Text(ManifestText(clips, resolve))] &&
      forall p :: p in files ==> p in after
  {
  }

  /** When ffmpeg fails, the promise rejects with its error and no file is
      deleted. */
  lemma ExecFailureDeletesNothing(files: map<string, FileData>, unwritable: set<string>, unremovable: set<string>,
                                  clips: seq<string>, tmpdir: string, now: nat, resolve: string -> string,
                                  binary: string, exec: (string, seq<string>) -> Option<string>)
    requires ManifestPath(tmpdir, now) !in unwritable && binary != ""
    requires exec(binary, FfmpegArgs(ManifestPath(tmpdir, now))).Some?
    ensures var (outcome, after) := AssembleResult(files, unwritable, unremovable, clips, tmpdir, now, resolve, Some(binary), exec);
      outcome == Rejected(Error(exec(binary, FfmpegArgs(ManifestPath(tmpdir, now))).value)) &&
      after == files[ManifestPath(tmpdir, now) := Text(ManifestText(clips, resolve))] &&
      (forall p :: p in files ==> p in after) && ManifestPath(tmpdir, now) in after
  {
  }

  /** After a successful concatenation the promise resolves to "final.mp3".
      The manifest and each listed clip that existed are gone exactly when
      their `unlinkSync` does not throw; whatever stays keeps its contents,
      and every file that was not listed is untouched. */
  lemma SuccessCleansUp(files: map<string, FileData>, unwritable: set<string>, unremovable: set<string>,
                        clips: seq<string>, tmpdir: string, now: nat, resolve: string -> string,
                        binary: string, exec: (string, seq<string>) -> Option<string>)
    requires ManifestPath(tmpdir, now) !in unwritable && binary != ""
    requires exec(binary, FfmpegArgs(ManifestPath(tmpdir, now))).None?
    ensures var (outcome, after) := AssembleResult(files, unwritable, unremovable, clips, tmpdir, now, resolve, Some(binary), exec);
      outcome == Resolved("final.mp3") &&
      (ManifestPath(tmpdir, now) in after <==> ManifestPath(tmpdir, now) in unremovable) &&
      (ManifestPath(tmpdir, now) in after ==> after[ManifestPath(tmpdir, now)] == Text(ManifestText(clips, resolve))) &&
      (forall p :: p in clips && p != ManifestPath(tmpdir, now) ==> (p in after <==> p in files && p in unremovable)) &&
      (forall p :: p in after && p != ManifestPath(tmpdir, now) ==> p in files && after[p] == files[p]) &&
      (forall p :: p in files && p !in clips && p != ManifestPath(tmpdir, now) ==> p in after)
  {
    var listFile := ManifestPath(tmpdir, now);
    var written := files[listFile := Text(ManifestText(clips, resolve))];
    UnlinkedRemovesExactly(written, clips + [listFile], unremovable);
  }

  /** The promise built after the fan-out: write the manifest, check for the
      binary, run ffmpeg, and on success delete the clips and then the
      manifest, logging and skipping every deletion that throws. */
  method Assemble(fs: FileSystem, clips: seq<string>, tmpdir: string, now: nat, resolve: string -> string,
                  ffmpeg: Option<string>, exec: (string, seq<string>) -> Option<string>) returns (outcome: Outcome)
    modifies fs
    ensures (outcome, fs.files) ==
      AssembleResult(old(fs.files), fs.unwritable, fs.unremovable, clips, tmpdir, now, resolve, ffmpeg, exec)
  {
    var listFile := ManifestPath(tmpdir, now);
    var written := fs.WriteFile(listFile, Text(ManifestText(clips, resolve)));
    if !written {
      return Rejected(WriteFailed(listFile));
    }
    if ffmpeg.None? || ffmpeg.value == "" {
      return Rejected(Error(BinaryNotFoundMessage));
    }
    var error := exec(ffmpeg.value, FfmpegArgs(listFile));
    if error.Some? {
      return Rejected(Error(error.value));
    }
    ghost var before := fs.files;
    var i := 0;
    while i < |clips|
      invariant 0 <= i <= |clips|
      invariant fs.files == Unlinked(before, clips[..i], fs.unremovable)
    {
      assert clips[..i + 1][..i] == clips[..i];
      var _ := fs.Unlink(clips[i]);
      i := i + 1;
    }
    assert clips[..i] == clips;
    assert (clips + [listFile])[..|clips|] == clips;
    var _ := fs.Unlink(listFile);
    outcome := Resolved(OutputFile);
  }

  /** `generateAudio`: the fan-out, the survivor list, then the promise. */
  method GenerateAudio(fs: FileSystem, conversations: seq<Dialogue>, tmpdir: string, now: nat,
                       fetch: (nat, SpeechRequest) -> Option<seq<bv8>>, resolve: string -> string,
                       ffmpeg: Option<string>, exec: (string, seq<string>) -> Option<string>) returns (outcome: Outcome)
    modifies fs
    ensures (outcome, fs.files) == AssembleResult(
      Saved(old(fs.files), conversations, |conversations|, tmpdir, fetch, fs.unwritable), fs.unwritable, fs.unremovable,
      Survivors(ClipResults(conversations, tmpdir, fetch, fs.unwritable)), tmpdir, now, resolve, ffmpeg, exec)
  {
    var results := SaveClips(fs, conversations, tmpdir, fetch);
    var files := Survivors(results);
    outcome := Assemble(fs, files, tmpdir, now, resolve, ffmpeg, exec);
  }

  /** After a successful `generateAudio`, a clip it wrote is gone exactly
      when its `unlinkSync` does not throw; one that stays keeps the bytes
      downloaded for it. */
  lemma GeneratedClipsRemoved(files: map<string, FileData>, unwritable: set<string>, unremovable: set<string>,
                              conversations: seq<Dialogue>, tmpdir: string, now: nat,
                              fetch: (nat, SpeechRequest) -> Option<seq<bv8>>, resolve: string -> string,
                              binary: string, exec: (string, seq<string>) -> Option<string>)
    requires ManifestPath(tmpdir, now) !in unwritable && binary != ""
    requires exec(binary, FfmpegArgs(ManifestPath(tmpdir, now))).None?
    ensures var (outcome, after) := AssembleResult(
        Saved(files, conversations, |conversations|, tmpdir, fetch, unwritable), unwritable, unremovable,
        Survivors(ClipResults(conversations, tmpdir, fetch, unwritable)), tmpdir, now, resolve, Some(binary), exec);
      outcome == Resolved("final.mp3") &&
      forall i :: 0 <= i < |conversations| && ClipResult(conversations, i, tmpdir, fetch, unwritable).Some? ==>
        (ClipPath(tmpdir, i) in after <==> ClipPath(tmpdir, i) in unremovable) &&
        (ClipPath(tmpdir, i) in after ==> after[ClipPath(tmpdir, i)] == Audio(fetch(i, RequestOf(conversations[i])).value))
  {
    var saved := Saved(files, conversations, |conversations|, tmpdir, fetch, unwritable);
    var clips := Survivors(ClipResults(conversations, tmpdir, fetch, unwritable));
    SavedClips(files, conversations, |conversations|, tmpdir, fetch, unwritable);
    forall i | 0 <= i < |conversations| && ClipResult(conversations, i, tmpdir, fetch, unwritable).Some?
      ensures ClipPath(tmpdir, i) in clips && ClipPath(tmpdir, i) != ManifestPath(tmpdir, now)
    {
      SurvivorsAreSucceededClips(conversations, tmpdir, fetch, unwritable, i);
      ManifestIsNotClip(tmpdir, now, i);
    }
    SuccessCleansUp(saved, unwritable, unremovable, clips, tmpdir, now, resolve, binary, exec);
  }

  /** After a successful `generateAudio`, the clip path of a failed task is
      as it was before the call: it is not listed, so it is neither written
      nor deleted, and a stale `part<i>.mp3` from an earlier run survives. */
  lemma FailedClipsUntouched(files: map<string, FileData>, unwritable: set<string>, unremovable: set<string>,
                             conversations: seq<Dialogue>, tmpdir: string, now: nat,
                             fetch: (nat, SpeechRequest) -> Option<seq<bv8>>, resolve: string -> string,
                             binary: string, exec: (string, seq<string>) -> Option<string>)
    requires ManifestPath(tmpdir, now) !in unwritable && binary != ""
    requires exec(binary, FfmpegArgs(ManifestPath(tmpdir, now))).None?
    ensures var (outcome, after) := AssembleResult(
        Saved(files, conversations, |conversations|, tmpdir, fetch, unwritable), unwritable, unremovable,
        Survivors(ClipResults(conversations, tmpdir, fetch, unwritable)), tmpdir, now, resolve, Some(binary), exec);
      forall i :: 0 <= i < |conversations| && ClipResult(conversations, i, tmpdir, fetch, unwritable).None? ==>
        (ClipPath(tmpdir, i) in after <==> ClipPath(tmpdir, i) in files) &&
        (ClipPath(tmpdir, i) in files ==> after[ClipPath(tmpdir, i)] == files[ClipPath(tmpdir, i)])
  {
    var saved := Saved(files, conversations, |conversations|, tmpdir, fetch, unwritable);
    var clips := Survivors(ClipResults(conversations, tmpdir, fetch, unwritable));
    SavedFailedClipsKept(files, conversations, |conversations|, tmpdir, fetch, unwritable);
    forall i | 0 <= i < |conversations| && ClipResult(conversations, i, tmpdir, fetch, unwritable).None?
      ensures ClipPath(tmpdir, i) !in clips && ClipPath(tmpdir, i) != ManifestPath(tmpdir, now)
    {
      SurvivorsAreSucceededClips(conversations, tmpdir, fetch, unwritable, i);
      ManifestIsNotClip(tmpdir, now, i);
    }
    SuccessCleansUp(saved, unwritable, unremovable, clips, tmpdir, now, resolve, binary, exec);
  }
}
