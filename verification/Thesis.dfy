/** Whether the thesis of an open position still stands: two bad bars in a row are needed to lose it. */
module Thesis {
  import opened Optional

  const OPEN_MIN: int := 570

  /** What one lane tag of the position answers: its lane is not armed today, it failed, or a verdict. */
  datatype LaneSay = Unarmed | Failed | Says(invalid: bool)

  /** The last committed bar of the underlying, and the answer of every lane tag to it. */
  datatype Bar = Bar(minute: int, lanes: seq<LaneSay>)

  /** One call: whether the position was entered on an earlier day, the minute, and the bar. */
  datatype Look = Look(overnight: bool, minute: int, bar: Option<Bar>)

  datatype Memory = Memory(streak: nat, evalMinute: Option<int>)

  datatype Answer = Answer(memory: Memory, valid: bool)

  const FRESH_START: Memory := Memory(0, None)

  /** Overnight positions are not judged in the first half hour. */
  predicate Exempt(l: Look) { l.overnight && l.minute < OPEN_MIN + 30 }

  /** A call that gets to see a bar. */
  predicate Reads(l: Look) { !Exempt(l) && l.bar.Some? }

  /** At least one armed lane, and every armed lane says invalid. */
  predicate AllInvalid(lanes: seq<LaneSay>) {
    && (exists i :: 0 <= i < |lanes| && !lanes[i].Unarmed?)
    && (forall i :: 0 <= i < |lanes| && !lanes[i].Unarmed? ==> lanes[i] == Says(true))
  }

  function Judge(m: Memory, l: Look): Answer {
    if Exempt(l) then Answer(m.(streak := 0), true)
    else if l.bar.None? then Answer(m, true)
    else if m.evalMinute == Some(l.bar.value.minute) then Answer(m, m.streak < 2)
    else
      var streak := if AllInvalid(l.bar.value.lanes) then m.streak + 1 else 0;
      Answer(Memory(streak, Some(l.bar.value.minute)), streak < 2)
  }

  function After(looks: seq<Look>): Memory {
    if looks == [] then FRESH_START else Judge(After(looks[..|looks| - 1]), looks[|looks| - 1]).memory
  }

  /** What the last call of a run answered. */
  predicate LastAnswer(looks: seq<Look>)
    requires looks != []
  {
    Judge(After(looks[..|looks| - 1]), looks[|looks| - 1]).valid
  }

  // ---------------------------------------------------------------- one call

  /** An overnight position before 10:00 has its count cleared and is valid. */
  lemma EarlyCall(m: Memory, l: Look)
    requires l.overnight && l.minute < 600
    ensures Judge(m, l) == Answer(Memory(0, m.evalMinute), true)
  {
  }

  /** Any other call without a bar is valid and leaves no trace; one on the bar judged last repeats
      the standing answer; one on a new bar counts it if some armed lane says invalid and no armed
      lane says otherwise or fails, else clears the count, and the second in a row loses the thesis. */
  lemma LateCall(m: Memory, l: Look)
    requires !l.overnight || l.minute >= 600
    ensures l.bar.None? ==> Judge(m, l) == Answer(m, true)
    ensures l.bar.Some? && m.evalMinute == Some(l.bar.value.minute) ==> Judge(m, l) == Answer(m, m.streak <= 1)
    ensures l.bar.Some? && m.evalMinute != Some(l.bar.value.minute) ==>
      var lanes := l.bar.value.lanes;
      var bad := Says(true) in lanes && Says(false) !in lanes && Failed !in lanes;
      Judge(m, l) == Answer(Memory(if bad then m.streak + 1 else 0, Some(l.bar.value.minute)), !bad || m.streak == 0)
  {
    if l.bar.Some? { AllInvalidIff(l.bar.value.lanes); }
    hide AllInvalid;
  }

  lemma AllInvalidIff(lanes: seq<LaneSay>)
    ensures AllInvalid(lanes) <==> Says(true) in lanes && Says(false) !in lanes && Failed !in lanes
  {
    if AllInvalid(lanes) {
      var i :| 0 <= i < |lanes| && !lanes[i].Unarmed?;
      assert lanes[i] == Says(true);
    }
    if Says(true) in lanes {
      var i :| 0 <= i < |lanes| && lanes[i] == Says(true);
      assert !lanes[i].Unarmed?;
    }
  }

  class ShadowPosition {
    var thesisInvalidStreak: nat
    var thesisEvalMinute: Option<int>

    function View(): Memory
      reads this
    {
      Memory(thesisInvalidStreak, thesisEvalMinute)
    }

    constructor ()
      ensures View() == FRESH_START
    {
      thesisInvalidStreak, thesisEvalMinute := 0, None;
    }

    method ThesisValid(l: Look) returns (valid: bool)
      modifies this
      ensures Answer(View(), valid) == Judge(old(View()), l)
    {
      if l.overnight && l.minute < OPEN_MIN + 30 {
        thesisInvalidStreak := 0;
        return true;
      }
      if l.bar.None? {
        return true;
      }
      var bar := l.bar.value;
      if thesisEvalMinute == Some(bar.minute) {
        return thesisInvalidStreak < 2;
      }
      thesisEvalMinute := Some(bar.minute);
      var any, all := false, true;
      for i := 0 to |bar.lanes|
        invariant any <==> exists k :: 0 <= k < i && !bar.lanes[k].Unarmed?
        invariant all <==> forall k :: 0 <= k < i && !bar.lanes[k].Unarmed? ==> bar.lanes[k] == Says(true)
      {
        var lane := bar.lanes[i];
        if !lane.Unarmed? {
          any := true;
          all := all && lane.Says? && lane.invalid;
        }
      }
      thesisInvalidStreak := if any && all then thesisInvalidStreak + 1 else 0;
      return thesisInvalidStreak < 2;
    }
  }

  // ---------------------------------------------------------------- a run of calls, told as history

  /** The minute of the last bar any call saw. */
  function LastRead(looks: seq<Look>): Option<int> {
    if looks == [] then None
    else if Reads(looks[|looks| - 1]) then Some(looks[|looks| - 1].bar.value.minute)
    else LastRead(looks[..|looks| - 1])
  }

  /** Call `i` saw a bar that the last seeing call before it did not. */
  predicate Fresh(looks: seq<Look>, i: nat)
    requires i < |looks|
  {
    Reads(looks[i]) && LastRead(looks[..i]) != Some(looks[i].bar.value.minute)
  }

  lemma SameFresh(looks: seq<Look>, n: nat, j: nat)
    requires j < n <= |looks|
    ensures Fresh(looks[..n], j) <==> Fresh(looks, j)
  {
    assert looks[..n][..j] == looks[..j];
  }

  /** The last call that saw a new bar. */
  function LastFresh(looks: seq<Look>): (i: Option<nat>)
    ensures i.Some? ==> i.value < |looks|
  {
    if looks == [] then None
    else if Fresh(looks, |looks| - 1) then Some(|looks| - 1)
    else LastFresh(looks[..|looks| - 1])
  }

  lemma {:induction false} LastFreshIsLast(looks: seq<Look>)
    ensures LastFresh(looks).Some? ==> Fresh(looks, LastFresh(looks).value)
    ensures forall j :: 0 <= j < |looks| && Fresh(looks, j) ==> LastFresh(looks).Some? && j <= LastFresh(looks).value
  {
    hide Fresh;
    if looks == [] {
    } else {
      var n := |looks| - 1;
      LastFreshIsLast(looks[..n]);
      forall j | 0 <= j < n ensures Fresh(looks[..n], j) <==> Fresh(looks, j) { SameFresh(looks, n, j); }
    }
  }

  predicate Damning(looks: seq<Look>, i: nat)
    requires i < |looks|
  {
    Reads(looks[i]) && AllInvalid(looks[i].bar.value.lanes)
  }

  predicate NoExemptFrom(looks: seq<Look>, i: nat) { forall j :: i <= j < |looks| ==> !Exempt(looks[j]) }

  /** The last new bar was bad and nothing has reset the count since. */
  predicate OneBad(looks: seq<Look>) {
    var b := LastFresh(looks);
    b.Some? && Damning(looks, b.value) && NoExemptFrom(looks, b.value)
  }

  /** The last two new bars were bad and nothing has reset the count since the first of them. */
  predicate TwoBad(looks: seq<Look>) {
    var b := LastFresh(looks);
    && b.Some? && Damning(looks, b.value)
    && (var a := LastFresh(looks[..b.value]);
        a.Some? && Damning(looks, a.value) && NoExemptFrom(looks, a.value))
  }

  lemma LastFreshStep(looks: seq<Look>, l: Look)
    ensures var n, k := |looks|, looks + [l];
      && k[..n] == looks
      && (Fresh(k, n) <==> Reads(l) && LastRead(looks) != Some(l.bar.value.minute))
      && LastFresh(k) == if Fresh(k, n) then Some(n) else LastFresh(looks)
  {
    assert (looks + [l])[..|looks|] == looks;
  }

  lemma LastReadStep(looks: seq<Look>, l: Look)
    ensures LastRead(looks + [l]) == if Reads(l) then Some(l.bar.value.minute) else LastRead(looks)
  {
    assert (looks + [l])[..|looks|] == looks;
  }

  lemma OnePastStep(looks: seq<Look>, l: Look, i: nat)
    requires i < |looks|
    ensures Damning(looks + [l], i) <==> Damning(looks, i)
    ensures NoExemptFrom(looks + [l], i) <==> NoExemptFrom(looks, i) && !Exempt(l)
  {
    var k := looks + [l];
    assert k[|looks|] == l && forall j :: 0 <= j < |looks| ==> k[j] == looks[j];
    if NoExemptFrom(k, i) {
      forall j | i <= j < |looks| ensures !Exempt(looks[j]) { assert !Exempt(k[j]); }
    }
  }

  /** A new bar adds one to the history. */
  lemma NewBarStep(looks: seq<Look>, l: Look)
    requires Fresh(looks + [l], |looks|)
    ensures OneBad(looks + [l]) <==> AllInvalid(l.bar.value.lanes)
    ensures TwoBad(looks + [l]) <==> AllInvalid(l.bar.value.lanes) && OneBad(looks)
  {
    hide AllInvalid, LastFresh, LastRead;
    LastFreshStep(looks, l);
    var a := LastFresh(looks);
    if a.Some? { OnePastStep(looks, l, a.value); }
  }

  /** Any other call changes nothing but a reset. */
  lemma OtherStep(looks: seq<Look>, l: Look)
    requires !Fresh(looks + [l], |looks|)
    ensures OneBad(looks + [l]) <==> OneBad(looks) && !Exempt(l)
    ensures TwoBad(looks + [l]) <==> TwoBad(looks) && !Exempt(l)
  {
    hide Fresh, LastFresh, LastRead, Damning, NoExemptFrom, Exempt;
    LastFreshStep(looks, l);
    var b := LastFresh(looks);
    if b.Some? {
      OnePastStep(looks, l, b.value);
      assert (looks + [l])[..b.value] == looks[..b.value];
      var a := LastFresh(looks[..b.value]);
      if a.Some? { OnePastStep(looks, l, a.value); }
    }
  }

  /** The two words of memory the position keeps say what its whole history says. */
  lemma {:induction false} MemoryIsHistory(looks: seq<Look>)
    ensures After(looks).evalMinute == LastRead(looks)
    ensures After(looks).streak >= 1 <==> OneBad(looks)
    ensures After(looks).streak >= 2 <==> TwoBad(looks)
  {
    if looks == [] {
    } else {
      hide AllInvalid, OneBad, TwoBad, LastFresh;
      var init, l := looks[..|looks| - 1], looks[|looks| - 1];
      assert looks == init + [l];
      MemoryIsHistory(init);
      LastReadStep(init, l);
      LastFreshStep(init, l);
      if Fresh(looks, |init|) { NewBarStep(init, l); } else { OtherStep(init, l); }
    }
  }

  /** The thesis is lost exactly when this call sees a bar and the last two new bars, with different
      minutes, found every armed lane saying invalid, with no exempt call since the first of them. */
  lemma LostIff(looks: seq<Look>)
    requires looks != []
    ensures !LastAnswer(looks) <==> Reads(looks[|looks| - 1]) && TwoBad(looks)
  {
    hide AllInvalid, TwoBad, OneBad;
    MemoryIsHistory(looks);
  }

  lemma {:induction false} FreshIsLastRead(looks: seq<Look>)
    ensures LastFresh(looks).Some? ==>
      var bar := looks[LastFresh(looks).value].bar; bar.Some? && LastRead(looks) == Some(bar.value.minute)
    ensures LastFresh(looks).None? ==> LastRead(looks).None?
  {
    if looks == [] {
    } else {
      var init, l := looks[..|looks| - 1], looks[|looks| - 1];
      assert looks == init + [l];
      FreshIsLastRead(init);
      LastReadStep(init, l);
      LastFreshStep(init, l);
      hide LastRead, LastFresh;
    }
  }

  /** A lost thesis has two witnesses: evaluations on different bars, with none in between. */
  lemma LostHasWitnesses(looks: seq<Look>) returns (a: nat, b: nat)
    requires looks != [] && !LastAnswer(looks)
    ensures a < b < |looks|
    ensures Damning(looks, a) && Damning(looks, b) && NoExemptFrom(looks, a)
    ensures looks[a].bar.value.minute != looks[b].bar.value.minute
    ensures Fresh(looks, b) && forall j :: a < j < |looks| && j != b ==> !Fresh(looks, j)
  {
    hide AllInvalid, LastRead;
    LostIff(looks);
    b := LastFresh(looks).value;
    var init := looks[..b];
    a := LastFresh(init).value;
    FreshIsLastRead(init);
    LastFreshIsLast(looks);
    LastFreshIsLast(init);
    assert Fresh(looks, b) && looks[b].bar.value.minute != looks[a].bar.value.minute by { FreshDiffers(looks, b); }
    forall j | a < j < b ensures !Fresh(looks, j) {
      assert init[..j] == looks[..j];
      if Fresh(looks, j) { assert Fresh(init, j) by { SameFresh(looks, b, j); } }
    }
  }

  lemma FreshDiffers(looks: seq<Look>, b: nat)
    requires b < |looks| && Fresh(looks, b)
    ensures Reads(looks[b]) && LastRead(looks[..b]) != Some(looks[b].bar.value.minute)
  {
  }

  /** Asking again about the same bar changes nothing, whatever the lanes would now say. */
  lemma RepeatIsIdle(m: Memory, l: Look, again: Look)
    requires Reads(l) && Reads(again) && again.bar.value.minute == l.bar.value.minute
    ensures Judge(Judge(m, l).memory, again) == Judge(m, l)
  {
  }

  /** In its first thirty session minutes an overnight position is never invalid, and whatever was
      held against it before is forgotten: losing the thesis later takes two damning evaluations
      on different bars after the exempt call. */
  lemma OvernightIsExempt(looks: seq<Look>, k: nat)
    requires k < |looks| && looks[k].overnight && looks[k].minute < 600
    ensures LastAnswer(looks[..k + 1])
    ensures !LastAnswer(looks) ==>
      exists a, b :: k < a < b < |looks| && Damning(looks, a) && Damning(looks, b)
                     && looks[a].bar.value.minute != looks[b].bar.value.minute
  {
    hide AllInvalid, After;
    assert looks[..k + 1][k] == looks[k];
    if !LastAnswer(looks) {
      var a, b := LostHasWitnesses(looks);
    }
  }
}
