/**
 * The block listener's cursor: src/App/UseCases/BlockListener.ts over src/Infrastructure/Repository/BlockRepository.ts.
 *
 * Heights are handed to the broker one after the other; each is saved as a string without waiting for the save,
 * which may land late, even after a restart, or never. A restart resumes from the string-greatest stored height.
 */
module BlockCursor {
  import opened Options
  import opened Decimals

  type Height = s: string | Canonical(s) witness "0"

  /** findLatestBlock: sorted by height descending, as strings, limited to one. */
  function FindLatest(stored: seq<Height>): Option<Height> {
    if stored == [] then None
    else
      var last := stored[|stored| - 1];
      match FindLatest(stored[..|stored| - 1])
      case None => Some(last)
      case Some(m) => if StringLess(m, last) then Some(last) else Some(m)
  }

  lemma {:induction false} LatestIsGreatest(stored: seq<Height>)
    ensures FindLatest(stored).None? <==> stored == []
    ensures FindLatest(stored).Some? ==>
      && FindLatest(stored).value in stored
      && forall h :: h in stored ==> !StringLess(FindLatest(stored).value, h)
  {
    if stored != [] {
      var init, last := stored[..|stored| - 1], stored[|stored| - 1];
      LatestIsGreatest(init);
      var m := FindLatest(stored).value;
      forall h | h in stored
        ensures !StringLess(m, h)
      {
        assert h in init || h == last;
        StringLessTotal(h, h);
        if init != [] {
          var prev := FindLatest(init).value;
          StringLessTotal(prev, last);
          if StringLess(m, h) && m == last && h in init {
            StringLessTransitive(prev, last, h);
          }
        }
      }
    }
  }

  /** A stored height that no stored height exceeds is the one found. */
  lemma GreatestIsLatest(stored: seq<Height>, m: Height)
    requires m in stored && forall h :: h in stored ==> !StringLess(m, h)
    ensures FindLatest(stored) == Some(m)
  {
    LatestIsGreatest(stored);
    StringLessTotal(m, FindLatest(stored).value);
  }

  function GetStartBlock(stored: seq<Height>, providerBlock: nat): nat {
    match FindLatest(stored)
    case Some(height) => Parse(height)
    case None => providerBlock
  }

  /* The resumed height. */

  /** `m` is the numerically greatest stored height. */
  predicate NumericMax(stored: seq<Height>, m: Height) {
    m in stored && forall h :: h in stored ==> Parse(h) <= Parse(m)
  }

  predicate NoLongerHeight(stored: seq<Height>, m: Height) {
    forall h :: h in stored ==> |h| <= |m|
  }

  lemma MaxIsLongest(stored: seq<Height>, m: Height)
    requires NumericMax(stored, m)
    ensures NoLongerHeight(stored, m)
  {
    forall h | h in stored
      ensures |h| <= |m|
    {
      if |h| > |m| {
        LongerIsLarger(m, h);
      }
    }
  }

  /**
   * The listener resumes right after the numerically greatest stored height exactly when no stored height exceeds
   * that height's first digits, as many of them as it has itself.
   */
  lemma ResumeExactIff(stored: seq<Height>, m: Height, providerBlock: nat)
    requires NumericMax(stored, m)
    ensures NoLongerHeight(stored, m)
    ensures GetStartBlock(stored, providerBlock) == Parse(m)
       <==> forall h :: h in stored ==> Parse(h) <= Parse(m[..|h|])
  {
    MaxIsLongest(stored, m);
    LatestIsGreatest(stored);
    forall h | h in stored
      ensures StringLess(m, h) <==> Parse(h) > Parse(m[..|h|])
    {
      if |h| < |m| {
        PrefixDecides(h, m);
      } else {
        assert m[..|h|] == m;
      }
      EqualLengthOrder(m[..|h|], h);
    }
    var l := FindLatest(stored).value;
    if Parse(l) == Parse(m) {
      if |l| < |m| {
        LongerIsLarger(l, m);
      }
      EqualLengthOrder(l, m);
    } else if forall h :: h in stored ==> Parse(h) <= Parse(m[..|h|]) {
      GreatestIsLatest(stored, m);
    }
  }

  /** Heights of equal length resume exactly. */
  lemma EqualDigitsResume(stored: seq<Height>, m: Height, providerBlock: nat)
    requires NumericMax(stored, m) && forall h :: h in stored ==> |h| == |m|
    ensures GetStartBlock(stored, providerBlock) == Parse(m)
  {
    ResumeExactIff(stored, m, providerBlock);
    assert m[..|m|] == m;
  }

  /** Heights of mixed length need not: with 9 and 10 stored, block 10 is read again. */
  lemma MixedDigitsResume(providerBlock: nat)
    ensures GetStartBlock(["9", "10"], providerBlock) == 9
  {
    assert "9"[0] == '9' && "10"[0] == '1';
    assert ["9", "10"][..1] == ["9"] && ["9"][..0] == [];
    assert FindLatest(["9"]) == Some("9");
    assert !StringLess("9", "10");
    assert "9"[..0] == "";
    assert Parse("9") == 9;
  }

  /** Upsert by height. */
  function Upsert(stored: seq<Height>, n: nat): seq<Height> {
    ParseUndoesPrint(n);
    if Print(n) in stored then stored else stored + [Print(n)]
  }

  lemma {:induction false} MaxExists(stored: seq<Height>) returns (m: Height)
    requires stored != []
    ensures NumericMax(stored, m)
  {
    var last := stored[|stored| - 1];
    if |stored| == 1 {
      m := last;
    } else {
      var before := MaxExists(stored[..|stored| - 1]);
      m := if Parse(before) < Parse(last) then last else before;
    }
  }

  /**
   * A save that has landed counts: while all heights have the same number of digits, no later restart goes back
   * behind it, whatever else is stored.
   */
  lemma LandedSaveCounts(stored: seq<Height>, n: nat, providerBlock: nat)
    requires forall h :: h in Upsert(stored, n) ==> |h| == |Print(n)|
    ensures GetStartBlock(Upsert(stored, n), providerBlock) >= n
  {
    var m := MaxExists(Upsert(stored, n));
    ParseUndoesPrint(n);
    EqualDigitsResume(Upsert(stored, n), m, providerBlock);
  }

  /* Runs. */

  datatype Cursor = Cursor(stored: seq<Height>, saves: seq<nat>, handed: set<nat>, next: nat, running: bool)

  datatype Step =
    | Start(providerBlock: nat) // the process starts; the provider's block counts if nothing is stored
    | NoBlock                   // the provider has no such block yet, or fails
    | RoundFails                // the price cache or the receipts fail
    | RoundSucceeds             // the block is handed over and its save is begun
    | SaveLands(k: nat)
    | SaveFails(k: nat)
    | Kill

  function WithoutSave(saves: seq<nat>, k: nat): seq<nat>
    requires k < |saves|
  {
    saves[..k] + saves[k + 1..]
  }

  function Apply(c: Cursor, step: Step): Cursor {
    match step
    case Start(p) => if c.running then c else c.(running := true, next := GetStartBlock(c.stored, p) + 1)
    case NoBlock => c
    case RoundFails => c
    case RoundSucceeds =>
      if c.running then c.(handed := c.handed + {c.next}, saves := c.saves + [c.next], next := c.next + 1) else c
    case SaveLands(k) =>
      if k < |c.saves| then c.(stored := Upsert(c.stored, c.saves[k]), saves := WithoutSave(c.saves, k)) else c
    case SaveFails(k) => if k < |c.saves| then c.(saves := WithoutSave(c.saves, k)) else c
    case Kill => c.(running := false)
  }

  function RunFrom(c: Cursor, steps: seq<Step>): Cursor {
    if steps == [] then c else Apply(RunFrom(c, steps[..|steps| - 1]), steps[|steps| - 1])
  }

  /** The first start on a collection that holds `base`. */
  function FirstStart(base: seq<Height>, providerBlock: nat): Cursor {
    Apply(Cursor(base, [], {}, 0, false), Start(providerBlock))
  }

  /** A restart that finds nothing stored must be given the origin or a height already handed over. */
  predicate AnchoredStep(origin: nat, c: Cursor, step: Step) {
    step.Start? && !c.running && c.stored == [] ==> step.providerBlock == origin || step.providerBlock in c.handed
  }

  predicate Anchored(origin: nat, c: Cursor, steps: seq<Step>) {
    forall i :: 0 <= i < |steps| ==> AnchoredStep(origin, RunFrom(c, steps[..i]), steps[i])
  }

  ghost predicate Between(handed: set<nat>, origin: nat, end: nat) {
    origin < end && forall h: nat :: h in handed <==> origin < h < end
  }

  ghost predicate CursorOk(base: seq<Height>, origin: nat, end: nat, c: Cursor) {
    && Between(c.handed, origin, end)
    && (c.running ==> origin < c.next <= end)
    && (forall i :: 0 <= i < |c.saves| ==> c.saves[i] in c.handed)
    && (forall h :: h in c.stored ==> h in base || Parse(h) in c.handed)
    && (forall h :: h in base ==> h in c.stored)
    && (base != [] ==> origin == Parse(FindLatest(base).value))
  }

  /** The height a restart resumes from is the origin, or was handed over. */
  lemma ResumeIsKnown(base: seq<Height>, origin: nat, end: nat, c: Cursor, providerBlock: nat)
    requires CursorOk(base, origin, end, c) && AnchoredStep(origin, c, Start(providerBlock)) && !c.running
    ensures
      var n := GetStartBlock(c.stored, providerBlock);
      n == origin || n in c.handed
  {
    LatestIsGreatest(c.stored);
    if c.stored != [] {
      var m := FindLatest(c.stored).value;
      if m in base {
        GreatestIsLatest(base, m);
      }
    }
  }

  lemma StepKeepsCursor(base: seq<Height>, origin: nat, end: nat, c: Cursor, step: Step) returns (end': nat)
    requires CursorOk(base, origin, end, c) && AnchoredStep(origin, c, step)
    ensures CursorOk(base, origin, end', Apply(c, step)) && end <= end'
  {
    end' := end;
    match step
    case Start(p) =>
      if !c.running {
        ResumeIsKnown(base, origin, end, c, p);
      }
    case RoundSucceeds =>
      if c.running && c.next == end {
        end' := end + 1;
      }
    case SaveLands(k) =>
      if k < |c.saves| {
        ParseUndoesPrint(c.saves[k]);
      }
    case _ =>
  }

  lemma {:induction false} RunKeepsCursor(base: seq<Height>, providerBlock: nat, steps: seq<Step>) returns (end: nat)
    requires Anchored(GetStartBlock(base, providerBlock), FirstStart(base, providerBlock), steps)
    ensures CursorOk(base, GetStartBlock(base, providerBlock), end, RunFrom(FirstStart(base, providerBlock), steps))
  {
    var origin, first := GetStartBlock(base, providerBlock), FirstStart(base, providerBlock);
    if steps == [] {
      end := origin + 1;
      LatestIsGreatest(base);
    } else {
      var before := steps[..|steps| - 1];
      forall i | 0 <= i < |before|
        ensures AnchoredStep(origin, RunFrom(first, before[..i]), before[i])
      {
        assert before[..i] == steps[..i];
      }
      end := RunKeepsCursor(base, providerBlock, before);
      assert AnchoredStep(origin, RunFrom(first, steps[..|steps| - 1]), steps[|steps| - 1]);
      end := StepKeepsCursor(base, origin, end, RunFrom(first, before), steps[|steps| - 1]);
    }
  }

  /**
   * No gaps: over any number of restarts, failed rounds and lost or late saves, the heights handed over since
   * the first start are exactly those between its origin and some end.
   */
  lemma {:induction false} NoGaps(base: seq<Height>, providerBlock: nat, steps: seq<Step>) returns (end: nat)
    requires Anchored(GetStartBlock(base, providerBlock), FirstStart(base, providerBlock), steps)
    ensures Between(
      RunFrom(FirstStart(base, providerBlock), steps).handed, GetStartBlock(base, providerBlock), end)
  {
    end := RunKeepsCursor(base, providerBlock, steps);
  }

  ghost predicate Convex(s: set<nat>) {
    forall a, b, c: nat :: a in s && b in s && a <= c <= b ==> c in s
  }

  /**
   * When every save was lost, the restart depends on the provider alone: the next height handed over leaves no
   * gap exactly when the provider's block is neither past the last height handed over nor two below the origin.
   */
  lemma EmptyRestart(handed: set<nat>, origin: nat, end: nat, providerBlock: nat)
    requires Between(handed, origin, end) && handed != {}
    ensures Convex(handed + {GetStartBlock([], providerBlock) + 1}) <==> origin <= providerBlock + 1 <= end
  {
    var x := providerBlock + 1;
    var all := handed + {x};
    assert GetStartBlock([], providerBlock) + 1 == x;
    assert origin + 1 in handed && end - 1 in handed;
    assert end - 1 in all && origin + 1 in all && x in all;
    if x > end {
      assert end !in all;
    } else if x < origin {
      assert origin !in all;
    }
  }

  /* Every height handed over is saved. */

  predicate NoSaveFails(steps: seq<Step>) {
    forall i :: 0 <= i < |steps| ==> !steps[i].SaveFails?
  }

  ghost predicate AllSaved(c: Cursor) {
    forall n :: n in c.handed ==> n in c.saves || Print(n) in c.stored
  }

  ghost predicate OnlyHandedSaved(base: seq<Height>, c: Cursor) {
    && (forall i :: 0 <= i < |c.saves| ==> c.saves[i] in c.handed)
    && (forall h :: h in base ==> h in c.stored)
    && (forall h :: h in c.stored ==> h in base || Parse(h) in c.handed)
  }

  lemma WithoutKeepsOthers(saves: seq<nat>, k: nat, n: nat)
    requires k < |saves| && n in saves && n != saves[k]
    ensures n in WithoutSave(saves, k)
  {
    var j :| 0 <= j < |saves| && saves[j] == n;
    assert WithoutSave(saves, k)[if j < k then j else j - 1] == n;
  }

  lemma StepKeepsSaved(base: seq<Height>, c: Cursor, step: Step)
    requires OnlyHandedSaved(base, c)
    ensures OnlyHandedSaved(base, Apply(c, step))
    ensures AllSaved(c) && !step.SaveFails? ==> AllSaved(Apply(c, step))
  {
    if step.SaveLands? && step.k < |c.saves| {
      ParseUndoesPrint(c.saves[step.k]);
      forall n | n in c.saves && n != c.saves[step.k]
        ensures n in WithoutSave(c.saves, step.k)
      {
        WithoutKeepsOthers(c.saves, step.k, n);
      }
    }
  }

  /**
   * Over every run, restarts included, only heights that were handed over are saved; and unless a save fails, every
   * height that was handed over is stored, or its save is still under way.
   */
  lemma {:induction false} HandedAreSaved(base: seq<Height>, providerBlock: nat, steps: seq<Step>)
    ensures OnlyHandedSaved(base, RunFrom(FirstStart(base, providerBlock), steps))
    ensures NoSaveFails(steps) ==> AllSaved(RunFrom(FirstStart(base, providerBlock), steps))
  {
    if steps != [] {
      var before := steps[..|steps| - 1];
      HandedAreSaved(base, providerBlock, before);
      StepKeepsSaved(base, RunFrom(FirstStart(base, providerBlock), before), steps[|steps| - 1]);
    }
  }

  /** A landed save is resumed right after, whatever the provider says, exactly if none is string-greater. */
  lemma LandedSaveResumesIff(stored: seq<Height>, n: nat, providerBlock: nat)
    ensures Canonical(Print(n))
    ensures GetStartBlock(Upsert(stored, n), providerBlock) == n
       <==> forall h :: h in stored ==> !StringLess(Print(n), h)
  {
    ParseUndoesPrint(n);
    var after, p := Upsert(stored, n), Print(n);
    LatestIsGreatest(after);
    StringLessTotal(p, p);
    var m := FindLatest(after).value;
    if forall h :: h in stored ==> !StringLess(p, h) {
      GreatestIsLatest(after, p);
    } else if Parse(m) == n {
      SameHeight(m, p);
    }
  }

  lemma SameHeight(a: Height, b: Height)
    requires Parse(a) == Parse(b)
    ensures a == b
  {
    if |a| < |b| {
      LongerIsLarger(a, b);
    } else if |b| < |a| {
      LongerIsLarger(b, a);
    } else {
      EqualLengthOrder(a, b);
    }
  }

  /* Exactly when no gap arises, from whatever origin. */

  /** A restart that finds nothing stored must be given a block whose next one is handed over or touches one that is. */
  predicate FitsStep(c: Cursor, step: Step) {
    step.Start? && !c.running && c.stored == [] && c.handed != {} ==>
      var p := step.providerBlock;
      p in c.handed || p + 1 in c.handed || p + 2 in c.handed
  }

  predicate Fits(c: Cursor, steps: seq<Step>) {
    forall i :: 0 <= i < |steps| ==> FitsStep(RunFrom(c, steps[..i]), steps[i])
  }

  /** No gap among the heights handed over, nor once the next one is. */
  ghost predicate GapFree(c: Cursor) {
    Convex(c.handed) && (c.running ==> Convex(c.handed + {c.next}))
  }

  ghost predicate GapFreeRun(c: Cursor, steps: seq<Step>) {
    forall i :: 0 <= i <= |steps| ==> GapFree(RunFrom(c, steps[..i]))
  }

  /** What was stored at first is where the first height was resumed from; what else is stored was handed over. */
  ghost predicate Resumable(base: seq<Height>, c: Cursor) {
    && (forall i :: 0 <= i < |c.saves| ==> c.saves[i] in c.handed)
    && (forall h :: h in c.stored ==> h in base || Parse(h) in c.handed)
    && (forall h :: h in base ==> h in c.stored)
    && (base != [] ==>
          var first := Parse(FindLatest(base).value) + 1;
          first in c.handed || (c.handed == {} && (c.running ==> c.next == first)))
  }

  lemma ResumedTouches(base: seq<Height>, c: Cursor, providerBlock: nat)
    requires Resumable(base, c) && !c.running && c.stored != []
    ensures
      var n := GetStartBlock(c.stored, providerBlock);
      n in c.handed || (base != [] && n == Parse(FindLatest(base).value))
  {
    LatestIsGreatest(c.stored);
    var m := FindLatest(c.stored).value;
    if m in base {
      GreatestIsLatest(base, m);
    }
  }

  lemma JoinsIff(handed: set<nat>, n: nat)
    requires Convex(handed) && handed != {}
    ensures Convex(handed + {n}) <==> n in handed || n + 1 in handed || (n > 0 && n - 1 in handed)
  {
    var all := handed + {n};
    var h :| h in handed;
    assert h in all && n in all;
    if n in handed || n + 1 in handed || (n > 0 && n - 1 in handed) {
      var k := if n in handed then n else if n + 1 in handed then n + 1 else n - 1;
      forall a, b, c: nat | a in all && b in all && a <= c <= b
        ensures c in all
      {
        var a', b' := if a in handed then a else k, if b in handed then b else k;
        assert a' <= c <= b' || c == n;
      }
    } else if h < n {
      assert n - 1 !in all;
    } else {
      assert n + 1 !in all;
    }
  }

  lemma StartFitsIff(base: seq<Height>, c: Cursor, providerBlock: nat)
    requires Resumable(base, c) && GapFree(c) && !c.running
    ensures FitsStep(c, Start(providerBlock)) <==> GapFree(Apply(c, Start(providerBlock)))
    ensures FitsStep(c, Start(providerBlock)) ==> Resumable(base, Apply(c, Start(providerBlock)))
  {
    LatestIsGreatest(base);
    LatestIsGreatest(c.stored);
    if c.stored != [] {
      ResumedTouches(base, c, providerBlock);
    }
    if c.handed != {} {
      JoinsIff(c.handed, GetStartBlock(c.stored, providerBlock) + 1);
    }
  }

  lemma StepFitsIff(base: seq<Height>, c: Cursor, step: Step)
    requires Resumable(base, c) && GapFree(c)
    ensures FitsStep(c, step) <==> GapFree(Apply(c, step))
    ensures FitsStep(c, step) ==> Resumable(base, Apply(c, step))
  {
    match step
    case Start(p) =>
      if !c.running {
        StartFitsIff(base, c, p);
      }
    case RoundSucceeds =>
      if c.running {
        JoinsIff(c.handed + {c.next}, c.next + 1);
      }
    case SaveLands(k) =>
      if k < |c.saves| {
        ParseUndoesPrint(c.saves[k]);
      }
    case _ =>
  }

  lemma FitsMore(c: Cursor, steps: seq<Step>, last: Step)
    ensures Fits(c, steps + [last]) <==> Fits(c, steps) && FitsStep(RunFrom(c, steps), last)
  {
    var all := steps + [last];
    assert all[..|steps|] == steps && all[|steps|] == last;
    assert forall i :: 0 <= i < |steps| ==> all[..i] == steps[..i] && all[i] == steps[i];
  }

  lemma RunFromMore(c: Cursor, steps: seq<Step>, last: Step)
    ensures RunFrom(c, steps + [last]) == Apply(RunFrom(c, steps), last)
  {
    assert (steps + [last])[..|steps + [last]| - 1] == steps;
  }

  lemma GapFreeMore(c: Cursor, steps: seq<Step>, last: Step)
    ensures GapFreeRun(c, steps + [last]) <==> GapFreeRun(c, steps) && GapFree(Apply(RunFrom(c, steps), last))
  {
    var all := steps + [last];
    RunFromMore(c, steps, last);
    assert all[..|all|] == all;
    assert forall i :: 0 <= i <= |steps| ==> all[..i] == steps[..i];
    if GapFreeRun(c, all) {
      assert GapFree(RunFrom(c, all[..|all|]));
      forall i | 0 <= i <= |steps|
        ensures GapFree(RunFrom(c, steps[..i]))
      {
        assert GapFree(RunFrom(c, all[..i]));
      }
    }
  }

  lemma {:induction false} FitsRun(base: seq<Height>, c: Cursor, steps: seq<Step>)
    requires Resumable(base, c) && GapFree(c)
    ensures Fits(c, steps) <==> GapFreeRun(c, steps)
    ensures Fits(c, steps) ==> Resumable(base, RunFrom(c, steps)) && GapFree(RunFrom(c, steps))
  {
    if steps != [] {
      var before, last := steps[..|steps| - 1], steps[|steps| - 1];
      assert steps == before + [last];
      FitsRun(base, c, before);
      FitsMore(c, before, last);
      GapFreeMore(c, before, last);
      if Fits(c, before) {
        StepFitsIff(base, RunFrom(c, before), last);
      }
    }
  }

  /**
   * Over every run there is never a gap, the height up next included, exactly if every restart that finds nothing
   * stored after heights were handed over is given a block at, or next to, the end of them or among them.
   */
  lemma NoGapsIff(base: seq<Height>, providerBlock: nat, steps: seq<Step>)
    ensures Fits(FirstStart(base, providerBlock), steps) <==> GapFreeRun(FirstStart(base, providerBlock), steps)
  {
    LatestIsGreatest(base);
    FitsRun(base, FirstStart(base, providerBlock), steps);
  }

  lemma RunFromThree(c: Cursor, x: Step, y: Step, z: Step)
    ensures RunFrom(c, [x, y, z]) == Apply(Apply(Apply(c, x), y), z)
  {
    assert [x, y, z] == [x, y] + [z] && [x, y] == [x] + [y] && [x] == [] + [x];
    RunFromMore(c, [], x);
    RunFromMore(c, [x], y);
    RunFromMore(c, [x, y], z);
  }

  /** One block is handed over, its save is lost, and the process dies. */
  lemma SaveLost(origin: nat)
    ensures RunFrom(FirstStart([], origin), [RoundSucceeds, SaveFails(0), Kill])
         == Cursor([], [], {origin + 1}, origin + 2, false)
  {
    var c := FirstStart([], origin);
    assert c == Cursor([], [], {}, origin + 1, true);
    RunFromThree(c, RoundSucceeds, SaveFails(0), Kill);
    var d := Apply(c, RoundSucceeds);
    assert d.saves == [origin + 1] && WithoutSave(d.saves, 0) == [];
  }

  /** Had the save landed, the restart would go on with the next block, wherever the chain is. */
  lemma LandedSaveIsResumed(origin: nat, latest: nat)
    ensures
      var c := RunFrom(FirstStart([], origin), [RoundSucceeds, SaveLands(0), Kill]);
      && c.stored == [Print(origin + 1)] && c.saves == [] && c.handed == {origin + 1} && !c.running
      && Apply(c, Start(latest)).next == origin + 2
  {
    var first := FirstStart([], origin);
    assert first == Cursor([], [], {}, origin + 1, true);
    RunFromThree(first, RoundSucceeds, SaveLands(0), Kill);
    ParseUndoesPrint(origin + 1);
    var d := Apply(first, RoundSucceeds);
    assert d.saves == [origin + 1] && WithoutSave(d.saves, 0) == [];
    assert Upsert([], origin + 1) == [Print(origin + 1)];
    LandedSaveResumesIff([], origin + 1, latest);
  }

  /** The failing input: the only save is lost, and the chain has gone on to another block by the restart. */
  lemma LostSaveLeavesGap(origin: nat, latest: nat)
    requires latest > origin + 1
    ensures
      var lost := [RoundSucceeds, SaveFails(0), Kill];
      && !Fits(FirstStart([], origin), lost + [Start(latest)])
      && RunFrom(FirstStart([], origin), lost + [Start(latest)] + [RoundSucceeds]).handed == {origin + 1, latest + 1}
  {
    var first, lost := FirstStart([], origin), [RoundSucceeds, SaveFails(0), Kill];
    SaveLost(origin);
    FitsMore(first, lost, Start(latest));
    RunFromMore(first, lost, Start(latest));
    RunFromMore(first, lost + [Start(latest)], RoundSucceeds);
  }

  /* The listener itself. */

  datatype Round = Missing | Failing | Fetched

  function StepOf(r: Round): Step {
    match r
    case Missing => NoBlock
    case Failing => RoundFails
    case Fetched => RoundSucceeds
  }

  function StepsOf(rounds: seq<Round>): seq<Step> {
    seq(|rounds|, i requires 0 <= i < |rounds| => StepOf(rounds[i]))
  }

  function Successes(rounds: seq<Round>): nat {
    if rounds == [] then 0
    else Successes(rounds[..|rounds| - 1]) + if rounds[|rounds| - 1] == Fetched then 1 else 0
  }

  /** The heights from `first` on, `n` of them. */
  function Heights(first: nat, n: nat): seq<nat> {
    seq(n, i requires 0 <= i < n => first + i)
  }

  /** The saves that are begun are those of the heights handed over, in order, and nothing else changes. */
  lemma {:induction false} RoundsSave(c: Cursor, rounds: seq<Round>)
    requires c.running
    ensures
      var d, n := RunFrom(c, StepsOf(rounds)), Successes(rounds);
      && d.running && d.next == c.next + n && d.stored == c.stored && d.saves == c.saves + Heights(c.next, n)
      && (forall h: nat :: h in d.handed <==> h in c.handed || c.next <= h < c.next + n)
  {
    if rounds == [] {
      assert StepsOf(rounds) == [] && c.saves + Heights(c.next, 0) == c.saves;
    } else {
      var before := rounds[..|rounds| - 1];
      RoundsSave(c, before);
      assert StepsOf(rounds)[..|rounds| - 1] == StepsOf(before);
      var n := Successes(before);
      assert Heights(c.next, n) + [c.next + n] == Heights(c.next, n + 1);
    }
  }

  class BlockListener {
    var stored: seq<Height>
    var saves: seq<nat>
    var handed: set<nat>
    var nextBlockNum: nat
    var running: bool

    function Position(): Cursor
      reads this
    {
      Cursor(stored, saves, handed, nextBlockNum, running)
    }

    /**
     * startBlockchainListener up to any round of its endless loop. `rounds` is what the provider and the services
     * answer; a fetched block is the one asked for.
     */
    method StartBlockchainListener(providerBlock: nat, rounds: seq<Round>)
      requires !running
      modifies this
      ensures Position() == RunFrom(Apply(old(Position()), Start(providerBlock)), StepsOf(rounds))
      ensures
        var first, n := GetStartBlock(old(stored), providerBlock) + 1, Successes(rounds);
        && nextBlockNum == first + n && stored == old(stored) && running
        && saves == old(saves) + Heights(first, n)
        && (forall h: nat :: h in handed <==> h in old(handed) || first <= h < first + n)
    {
      nextBlockNum := GetStartBlock(stored, providerBlock) + 1;
      running := true;
      ghost var first := Position();
      var i := 0;
      while i < |rounds|
        invariant 0 <= i <= |rounds|
        invariant running && Position() == RunFrom(first, StepsOf(rounds[..i]))
      {
        assert StepsOf(rounds[..i + 1])[..i] == StepsOf(rounds[..i]);
        var round := rounds[i];
        i := i + 1;
        if round == Missing {
          continue;
        }
        if round == Fetched {
          handed := handed + {nextBlockNum};
          saves := saves + [nextBlockNum];
          nextBlockNum := nextBlockNum + 1;
        }
      }
      assert rounds[..|rounds|] == rounds;
      RoundsSave(first, rounds);
    }
  }
}
