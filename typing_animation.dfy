/** The typewriter effect of the portfolio page: one phrase at a time is
    typed forward one character per tick, held, deleted one character per
    tick, and the next phrase follows, forever. Each tick shows a prefix of
    the current phrase and picks the delay before the next tick. */
module TypingAnimation {

  const Roles: seq<string> := ["Web Developer", "Frontend Developer", "Backend Developer", "QA Tester"]

  /** Delays in milliseconds before the next tick. */
  const TypeDelay: nat := 100
  const HoldDelay: nat := 1500
  const DeleteDelay: nat := 50
  const NextRoleDelay: nat := 500

  datatype TypeState = TypeState(roleIndex: int, charIndex: int, isTyping: bool)

  const Initial: TypeState := TypeState(0, 0, true)

  /** The states the animation reaches: a valid phrase, a prefix length within
      it, below the full length while typing and above 0 while deleting. */
  predicate Inv(s: TypeState) {
    0 <= s.roleIndex < |Roles| &&
    0 <= s.charIndex <= |Roles[s.roleIndex]| &&
    (s.isTyping ==> s.charIndex < |Roles[s.roleIndex]|) &&
    (!s.isTyping ==> s.charIndex > 0)
  }

  /** Outcome of one tick: the new state, the text shown (without the
      cursor markup) and the delay chosen for the next tick. */
  datatype Tick = Tick(next: TypeState, shown: string, delay: nat)

  /** One call of typeEffect. */
  function Step(s: TypeState): (t: Tick)
    requires Inv(s)
    ensures Inv(t.next)
    ensures t.next.charIndex <= |Roles[s.roleIndex]|
    ensures t.shown == Roles[s.roleIndex][..t.next.charIndex]
    ensures s.isTyping ==> t.next.charIndex == s.charIndex + 1 && t.next.roleIndex == s.roleIndex
    ensures !s.isTyping ==> t.next.charIndex == s.charIndex - 1
    ensures t.delay == HoldDelay <==> s.isTyping && t.next.charIndex == |Roles[s.roleIndex]|
    ensures t.delay == NextRoleDelay <==> !s.isTyping && t.next.charIndex == 0
    ensures t.delay == TypeDelay <==> s.isTyping && t.next.charIndex < |Roles[s.roleIndex]|
    ensures t.delay == DeleteDelay <==> !s.isTyping && t.next.charIndex > 0
    ensures t.delay in {TypeDelay, HoldDelay, DeleteDelay, NextRoleDelay}
    ensures t.next.isTyping != s.isTyping <==> t.delay in {HoldDelay, NextRoleDelay}
    ensures t.next.roleIndex == if t.delay == NextRoleDelay then (s.roleIndex + 1) % |Roles| else s.roleIndex
  {
    var role := Roles[s.roleIndex];
    if s.isTyping then
      var c := s.charIndex + 1;
      if c == |role| then Tick(TypeState(s.roleIndex, c, false), role[..c], HoldDelay)
      else Tick(TypeState(s.roleIndex, c, true), role[..c], TypeDelay)
    else
      var c := s.charIndex - 1;
      if c == 0 then Tick(TypeState((s.roleIndex + 1) % |Roles|, c, true), role[..c], NextRoleDelay)
      else Tick(TypeState(s.roleIndex, c, false), role[..c], DeleteDelay)
  }

  /** The state after k ticks. */
  function StepTimes(s: TypeState, k: nat): (r: TypeState)
    requires Inv(s)
    ensures Inv(r)
    decreases k
  {
    if k == 0 then s else StepTimes(Step(s).next, k - 1)
  }

  lemma {:induction false} StepTimesAdd(s: TypeState, a: nat, b: nat)
    requires Inv(s)
    ensures StepTimes(s, a + b) == StepTimes(StepTimes(s, a), b)
    decreases a
  {
    if a > 0 {
      StepTimesAdd(Step(s).next, a - 1, b);
    }
  }

  /** Typing from any reachable typing state completes the phrase after
      exactly the missing number of ticks, and then turns to deleting. */
  lemma {:induction false} TypingPhase(s: TypeState)
    requires Inv(s) && s.isTyping
    ensures StepTimes(s, |Roles[s.roleIndex]| - s.charIndex) == TypeState(s.roleIndex, |Roles[s.roleIndex]|, false)
    decreases |Roles[s.roleIndex]| - s.charIndex
  {
    var t := Step(s).next;
    if t.isTyping {
      TypingPhase(t);
    }
  }

  /** Deleting from any reachable deleting state empties the phrase after
      exactly charIndex ticks and starts typing the next phrase. */
  lemma {:induction false} DeletingPhase(s: TypeState)
    requires Inv(s) && !s.isTyping
    ensures StepTimes(s, s.charIndex) == TypeState((s.roleIndex + 1) % |Roles|, 0, true)
    decreases s.charIndex
  {
    var t := Step(s).next;
    if !t.isTyping {
      DeletingPhase(t);
    }
  }

  /** One phrase takes twice its length in ticks, from empty back to empty,
      and moves on to the next phrase (the last wraps to the first). */
  lemma RoleCycle(r: int)
    requires 0 <= r < |Roles|
    ensures StepTimes(TypeState(r, 0, true), 2 * |Roles[r]|) == TypeState((r + 1) % |Roles|, 0, true)
  {
    var s := TypeState(r, 0, true);
    var n := |Roles[r]|;
    TypingPhase(s);
    DeletingPhase(TypeState(r, n, false));
    StepTimesAdd(s, n, n);
  }

  /** Starting from "Web Developer" with nothing shown, 13 ticks type the
      whole phrase and switch to deleting. */
  lemma FirstPhraseTyped()
    ensures StepTimes(Initial, 13) == TypeState(0, 13, false)
  {
    TypingPhase(Initial);
  }

  /** The animation is periodic: after 114 ticks (twice the total length of
      the four phrases) it is back in its initial state. */
  lemma Periodic()
    ensures StepTimes(Initial, 114) == Initial
  {
    var s1 := TypeState(1, 0, true);
    var s2 := TypeState(2, 0, true);
    var s3 := TypeState(3, 0, true);
    RoleCycle(0);
    RoleCycle(1);
    RoleCycle(2);
    RoleCycle(3);
    assert StepTimes(Initial, 26) == s1;
    assert StepTimes(s1, 36) == s2;
    assert StepTimes(s2, 34) == s3;
    assert StepTimes(s3, 18) == Initial;
    StepTimesAdd(Initial, 26, 36);
    StepTimesAdd(Initial, 62, 34);
    StepTimesAdd(Initial, 96, 18);
  }

  class Typewriter {
    var roleIndex: int
    var charIndex: int
    var isTyping: bool

    ghost function State(): TypeState
      reads this
    {
      TypeState(roleIndex, charIndex, isTyping)
    }

    ghost predicate Valid()
      reads this
    {
      Inv(State())
    }

    constructor ()
      ensures Valid() && State() == Initial
    {
      roleIndex, charIndex, isTyping := 0, 0, true;
    }

    /** typeEffect: moves one character, returns the text to show and the
      delay before the next call. */
    method TypeEffect() returns (shown: string, delay: nat)
      requires Valid()
      modifies this
      ensures Valid()
      ensures Step(old(State())) == Tick(State(), shown, delay)
    {
      var currentRole := Roles[roleIndex];
      if isTyping {
        charIndex := charIndex + 1;
        shown := currentRole[..charIndex];
        if charIndex == |currentRole| {
          isTyping := false;
          delay := HoldDelay;
        } else {
          delay := TypeDelay;
        }
      } else {
        charIndex := charIndex - 1;
        shown := currentRole[..charIndex];
        if charIndex == 0 {
          isTyping := true;
          roleIndex := (roleIndex + 1) % |Roles|;
          delay := NextRoleDelay;
        } else {
          delay := DeleteDelay;
        }
      }
    }
  }
}
