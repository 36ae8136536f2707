/** The names of evidence files, and the pattern that selects a stage's receipts. */
module ReleaseFiles {
  import opened ReleaseMachine

  predicate EndsWith(s: string, suffix: string) {
    |suffix| <= |s| && s[|s| - |suffix|..] == suffix
  }

  /** The glob `*-<stage>.json`. */
  predicate Selects(stage: Stage, file: string) {
    EndsWith(file, "-" + Name(stage) + ".json")
  }

  function ReceiptFile(p: Path): string {
    p.run + "-" + Name(p.stage) + ".json"
  }

  function ManifestFile(run: string): string {
    run + "-manifest.json"
  }

  /** Letters that set the names apart, counted from the end of the name. */
  lemma NamesApart(a: Stage, b: Stage)
    requires a != b
    ensures !EndsWith("-" + Name(a), "-" + Name(b))
  {
    var x, y := "-" + Name(a), "-" + Name(b);
    if |y| <= |x| {
      assert x[|x| - |y|..][0] == x[|x| - |y|];
      assert x[|x| - |y|..][|y| - 1] == x[|x| - 1];
    }
  }

  lemma NoneIsManifest(a: Stage)
    ensures !EndsWith("-manifest", "-" + Name(a)) && !EndsWith("-" + Name(a), "-manifest")
  {
    var x, m := "-" + Name(a), "-manifest";
    if |x| <= |m| {
      assert m[|m| - |x|..][|x| - 1] == m[|m| - 1];
    }
    if |m| <= |x| {
      assert x[|x| - |m|..][|m| - 1] == x[|x| - 1];
    }
  }

  lemma EndsWithTail(head: string, tail: string, suffix: string)
    requires |suffix| <= |tail|
    ensures EndsWith(head + tail, suffix) <==> EndsWith(tail, suffix)
  {
    var s := head + tail;
    assert s[|s| - |suffix|..] == tail[|tail| - |suffix|..];
  }

  lemma EndsWithExtension(s: string, suffix: string, extension: string)
    ensures EndsWith(s + extension, suffix + extension) <==> EndsWith(s, suffix)
  {
    var t := s + extension;
    if |suffix| <= |s| {
      assert t[|t| - |suffix| - |extension|..] == s[|s| - |suffix|..] + extension;
      var u := s[|s| - |suffix|..];
      assert (u + extension)[..|suffix|] == u && (suffix + extension)[..|suffix|] == suffix;
    }
  }

  /** A suffix longer than the tail ends with the tail. */
  lemma LongerSuffix(head: string, tail: string, suffix: string)
    requires |tail| < |suffix| && EndsWith(head + tail, suffix)
    ensures EndsWith(suffix, tail)
  {
    var s := head + tail;
    assert tail == s[|s| - |tail|..];
    assert suffix[|suffix| - |tail|..] == s[|s| - |suffix|..][|suffix| - |tail|..] == s[|s| - |tail|..];
  }

  /** A suffix that the tail does not end with, and that does not end with the tail, is none. */
  lemma NotASuffix(head: string, tail: string, suffix: string)
    requires !EndsWith(tail, suffix) && !EndsWith(suffix, tail)
    ensures !EndsWith(head + tail, suffix)
  {
    hide EndsWith;
    if |suffix| <= |tail| {
      EndsWithTail(head, tail, suffix);
    } else if EndsWith(head + tail, suffix) {
      LongerSuffix(head, tail, suffix);
    }
  }

  /** A stage's pattern selects the receipts of that stage and no others, whatever the run is called. */
  lemma SelectsExact(p: Path, stage: Stage)
    ensures Selects(stage, ReceiptFile(p)) <==> p.stage == stage
  {
    hide Name;
    var x, y := "-" + Name(p.stage), "-" + Name(stage);
    assert ReceiptFile(p) == (p.run + x) + ".json" && "-" + Name(stage) + ".json" == y + ".json";
    EndsWithExtension(p.run + x, y, ".json");
    if p.stage == stage {
      EndsWithTail(p.run, x, y);
      assert x[0..] == x;
    } else {
      NamesApart(p.stage, stage);
      NamesApart(stage, p.stage);
      NotASuffix(p.run, x, y);
    }
  }

  /** No stage's pattern selects a manifest. */
  lemma ManifestsAreNotSelected(run: string, stage: Stage)
    ensures !Selects(stage, ManifestFile(run))
  {
    hide Name;
    var y := "-" + Name(stage);
    assert ManifestFile(run) == (run + "-manifest") + ".json" && "-" + Name(stage) + ".json" == y + ".json";
    EndsWithExtension(run + "-manifest", y, ".json");
    NoneIsManifest(stage);
    NotASuffix(run, "-manifest", y);
  }
}
