/** The best-audio choice inside `downloadYouTube`. */
module Formats {
  import opened Wrappers

  /** The two fields of a stream format the choice looks at. */
  datatype Format = Format(audioChannels: int, bitrate: int)

  predicate HasAudio(f: Format) {
    f.audioChannels > 0
  }

  /** `k` is the first audio-bearing format whose bitrate no audio-bearing format exceeds. */
  ghost predicate IsBestAudio(fs: seq<Format>, k: int) {
    && 0 <= k < |fs|
    && HasAudio(fs[k])
    && (forall j :: 0 <= j < |fs| && HasAudio(fs[j]) ==> fs[j].bitrate <= fs[k].bitrate)
    && (forall j :: 0 <= j < k && HasAudio(fs[j]) ==> fs[j].bitrate < fs[k].bitrate)
  }

  /** The scan of `video.Formats`: keep a format when it carries audio and either nothing
      is kept yet or its bitrate is strictly higher. `None` is the nil pointer that makes
      the caller report that no audio stream was found. */
  method SelectBestAudio(fs: seq<Format>) returns (best: Option<nat>)
    ensures best.None? <==> forall j :: 0 <= j < |fs| ==> !HasAudio(fs[j])
    ensures best.Some? ==> IsBestAudio(fs, best.value)
  {
    best := None;
    for i := 0 to |fs|
      invariant best.None? <==> forall j :: 0 <= j < i ==> !HasAudio(fs[j])
      invariant best.Some? ==> IsBestAudio(fs[..i], best.value)
    {
      if HasAudio(fs[i]) && (best.None? || fs[i].bitrate > fs[best.value].bitrate) {
        best := Some(i);
      }
    }
    assert fs[..|fs|] == fs;
  }

  /** At most one index satisfies `IsBestAudio`: ties go to the earliest candidate. */
  lemma BestAudioUnique(fs: seq<Format>, k: int, m: int)
    requires IsBestAudio(fs, k) && IsBestAudio(fs, m)
    ensures k == m
  {
  }

  /** Of `(0 channels, 320)`, `(2 channels, 128)` and `(1 channel, 256)` the choice is the
      third: the silent 320 kbit/s stream never competes. */
  lemma ExampleChoice()
    ensures IsBestAudio([Format(0, 320), Format(2, 128), Format(1, 256)], 2)
  {
  }

  /** The same scan under the loop-variable semantics of Go before 1.22, where `&f` is the
      address of the one variable every iteration overwrites. Once any audio-bearing
      format has been seen the kept pointer aliases `f`, the strict comparison compares
      `f` with itself, and after the loop the pointer reads the last format. */
  method SelectBestAudioAliased(fs: seq<Format>) returns (best: Option<Format>)
    ensures best.None? <==> forall j :: 0 <= j < |fs| ==> !HasAudio(fs[j])
    ensures best.Some? ==> best.value == fs[|fs| - 1]
  {
    var f := Format(0, 0);
    var kept := false;
    for i := 0 to |fs|
      invariant kept <==> exists j :: 0 <= j < i && HasAudio(fs[j])
      invariant i > 0 ==> f == fs[i - 1]
    {
      f := fs[i];
      if HasAudio(f) && (!kept || f.bitrate > f.bitrate) {
        kept := true;
      }
    }
    best := if kept then Some(f) else None;
  }

  /** An input on which the aliased scan hands back a stream with no audio at all, while
      the intended choice is the first format. */
  lemma AliasedScanPicksSilentFormat()
    ensures var fs := [Format(2, 128), Format(0, 320)];
      IsBestAudio(fs, 0) && !HasAudio(fs[|fs| - 1])
  {
  }
}
