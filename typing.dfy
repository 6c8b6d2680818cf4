/** The hero's typed-role animation: a three-field state machine that types a
    role name one character at a time, holds it, deletes it, and moves on to
    the next role. One timer callback is one `Step`. */
module Typing {

  datatype TypingState = TypingState(roleIndex: nat, typedRole: string, isDeleting: bool)

  /** The roles exist, the index is in range and the text shown is a prefix
      of the current role. */
  predicate ValidState(roles: seq<string>, s: TypingState) {
    && |roles| > 0
    && s.roleIndex < |roles|
    && s.typedRole <= roles[s.roleIndex]
  }

  /** `str.slice(0, end)` for `end >= 0`: clamped to the string's length. */
  function SliceTo(str: string, end: nat): string {
    if end <= |str| then str[..end] else str
  }

  /** `nextTick`, as a function of the state the effect captured. */
  function Step(roles: seq<string>, s: TypingState): (r: TypingState)
    requires |roles| > 0 && s.roleIndex < |roles|
    ensures r.roleIndex < |roles|
  {
    var currentRole := roles[s.roleIndex];
    var isWordComplete := s.typedRole == currentRole;
    var isWordDeleted := |s.typedRole| == 0;
    if !s.isDeleting && !isWordComplete then
      s.(typedRole := SliceTo(currentRole, |s.typedRole| + 1))
    else if !s.isDeleting && isWordComplete then
      s.(isDeleting := true)
    else if s.isDeleting && !isWordDeleted then
      s.(typedRole := SliceTo(currentRole, |s.typedRole| - 1))
    else
      s.(isDeleting := false, roleIndex := (s.roleIndex + 1) % |roles|)
  }

  /** `holdDelay || typingDelay`: the timeout before the next step. */
  function Delay(roles: seq<string>, s: TypingState): (ms: nat)
    requires |roles| > 0 && s.roleIndex < |roles|
    ensures !s.isDeleting && s.typedRole == roles[s.roleIndex] ==> ms == 1100
    ensures s.isDeleting ==> ms == 45
    ensures !s.isDeleting && s.typedRole != roles[s.roleIndex] ==> ms == 95
  {
    var typingDelay := if s.isDeleting then 45 else 95;
    var holdDelay := if !s.isDeleting && s.typedRole == roles[s.roleIndex] then 1100 else 0;
    if holdDelay != 0 then holdDelay else typingDelay
  }

  /** Every step keeps the index in range and the text a prefix of its role. */
  lemma StepPreservesValid(roles: seq<string>, s: TypingState)
    requires ValidState(roles, s)
    ensures ValidState(roles, Step(roles, s))
  {
  }

  /** While typing an incomplete word the text grows by exactly the next
      character of the role; while deleting a non-empty text it loses its last
      character. The phase and the index are unchanged in both cases. */
  lemma StepChangesTextByOne(roles: seq<string>, s: TypingState)
    requires ValidState(roles, s)
    ensures var w := roles[s.roleIndex]; var s' := Step(roles, s);
      && (!s.isDeleting && s.typedRole != w ==>
            |s.typedRole| < |w| && s' == s.(typedRole := s.typedRole + [w[|s.typedRole|]]))
      && (s.isDeleting && s.typedRole != [] ==>
            s' == s.(typedRole := s.typedRole[..|s.typedRole| - 1]))
  {
    var w := roles[s.roleIndex];
    if !s.isDeleting && s.typedRole != w {
      assert |s.typedRole| < |w|;
      assert w[..|s.typedRole| + 1] == w[..|s.typedRole|] + [w[|s.typedRole|]];
    }
  }

  /** A complete word starts the deletion with the text unchanged; an emptied
      word ends it and advances the index cyclically. */
  lemma StepChangesPhase(roles: seq<string>, s: TypingState)
    requires ValidState(roles, s)
    ensures !s.isDeleting && s.typedRole == roles[s.roleIndex] ==>
      Step(roles, s) == s.(isDeleting := true)
    ensures s.isDeleting && s.typedRole == [] ==>
      Step(roles, s) == TypingState((s.roleIndex + 1) % |roles|, [], false)
  {
  }

  /** `k` steps in a row. */
  function Steps(roles: seq<string>, s: TypingState, k: nat): (r: TypingState)
    requires |roles| > 0 && s.roleIndex < |roles|
    ensures r.roleIndex < |roles|
    decreases k
  {
    if k == 0 then s else Steps(roles, Step(roles, s), k - 1)
  }

  lemma {:induction false} StepsValid(roles: seq<string>, s: TypingState, k: nat)
    requires ValidState(roles, s)
    ensures ValidState(roles, Steps(roles, s, k))
    decreases k
  {
    if k > 0 {
      StepPreservesValid(roles, s);
      StepsValid(roles, Step(roles, s), k - 1);
    }
  }

  lemma {:induction false} StepsAdd(roles: seq<string>, s: TypingState, a: nat, b: nat)
    requires |roles| > 0 && s.roleIndex < |roles|
    ensures Steps(roles, s, a + b) == Steps(roles, Steps(roles, s, a), b)
    decreases a
  {
    if a > 0 {
      StepsAdd(roles, Step(roles, s), a - 1, b);
    }
  }

  /** Typing from any prefix reaches the whole word in as many steps as
      characters are missing. */
  lemma {:induction false} TypesUp(roles: seq<string>, i: nat, j: nat)
    requires |roles| > 0 && i < |roles| && j <= |roles[i]|
    ensures Steps(roles, TypingState(i, roles[i][..j], false), |roles[i]| - j) == TypingState(i, roles[i], false)
    decreases |roles[i]| - j
  {
    var w := roles[i];
    if j == |w| {
      assert w[..j] == w;
    } else {
      var s := TypingState(i, w[..j], false);
      assert w[..j] != w by { assert |w[..j]| != |w|; }
      assert Step(roles, s) == TypingState(i, w[..j + 1], false);
      TypesUp(roles, i, j + 1);
    }
  }

  /** Deleting from any prefix empties the text in as many steps as it has
      characters. */
  lemma {:induction false} DeletesDown(roles: seq<string>, i: nat, j: nat)
    requires |roles| > 0 && i < |roles| && j <= |roles[i]|
    ensures Steps(roles, TypingState(i, roles[i][..j], true), j) == TypingState(i, [], true)
    decreases j
  {
    var w := roles[i];
    if j > 0 {
      var s := TypingState(i, w[..j], true);
      assert Step(roles, s) == TypingState(i, w[..j - 1], true);
      DeletesDown(roles, i, j - 1);
    }
  }

  /** One full cycle: from an empty text, a role of length n is typed, held,
      deleted and left after exactly 2n + 2 steps, landing on the next role
      (cyclically) with an empty text. */
  lemma RoleCycle(roles: seq<string>, i: nat)
    requires |roles| > 0 && i < |roles|
    ensures Steps(roles, TypingState(i, [], false), 2 * |roles[i]| + 2)
         == TypingState((i + 1) % |roles|, [], false)
  {
    var w := roles[i];
    var n := |w|;
    var s0 := TypingState(i, [], false);
    assert w[..0] == [];
    TypesUp(roles, i, 0);
    StepsAdd(roles, s0, n, n + 2);
    var s1 := TypingState(i, w, false);
    assert Steps(roles, s1, n + 2) == Steps(roles, TypingState(i, w, true), n + 1);
    assert w[..n] == w;
    DeletesDown(roles, i, n);
    StepsAdd(roles, TypingState(i, w, true), n, 1);
  }

  /** The `roleIndex` / `typedRole` / `isDeleting` state of the hero. */
  class Typewriter {
    var roles: seq<string>
    var roleIndex: nat
    var typedRole: string
    var isDeleting: bool

    function State(): TypingState
      reads this
    {
      TypingState(roleIndex, typedRole, isDeleting)
    }

    ghost predicate Valid()
      reads this
    {
      ValidState(roles, State())
    }

    /** The state after mount and after every language change: the first
        role of the (new) list, nothing typed, not deleting. */
    constructor (roles: seq<string>)
      requires |roles| > 0
      ensures Valid() && this.roles == roles && State() == TypingState(0, [], false)
    {
      this.roles := roles;
      roleIndex, typedRole, isDeleting := 0, [], false;
    }

    /** The `[lang]` effect: switch to the new language's roles and restart. */
    method ResetFor(newRoles: seq<string>)
      requires |newRoles| > 0
      modifies this
      ensures Valid() && roles == newRoles && State() == TypingState(0, [], false)
    {
      roles := newRoles;
      roleIndex, typedRole, isDeleting := 0, [], false;
    }

    /** The timeout before the next tick. */
    function NextDelay(): (ms: nat)
      reads this
      requires Valid()
      ensures ms in {45, 95, 1100}
      ensures ms == 1100 <==> !isDeleting && typedRole == roles[roleIndex]
    {
      Delay(roles, State())
    }

    /** One timer callback. */
    method Tick()
      requires Valid()
      modifies this
      ensures Valid() && roles == old(roles)
      ensures State() == Step(roles, old(State()))
    {
      StepPreservesValid(roles, State());
      var currentRole := roles[roleIndex];
      var isWordComplete := typedRole == currentRole;
      var isWordDeleted := |typedRole| == 0;
      if !isDeleting && !isWordComplete {
        typedRole := SliceTo(currentRole, |typedRole| + 1);
        return;
      }
      if !isDeleting && isWordComplete {
        isDeleting := true;
        return;
      }
      if isDeleting && !isWordDeleted {
        typedRole := SliceTo(currentRole, |typedRole| - 1);
        return;
      }
      isDeleting := false;
      roleIndex := (roleIndex + 1) % |roles|;
    }
  }
}
