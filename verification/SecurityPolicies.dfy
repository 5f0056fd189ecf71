/** The message, the route table and the policies of lib/secure_gateway.h, lib/route_table.c and
    lib/security_policies.c. */
module SecurityPolicies {
  import opened Common

  const SOURCE_NULL := 0
  const SOURCE_VMC := 1
  const SOURCE_LEGACY := 2
  const SOURCE_ENCLAVE := 3
  const MAX_SOURCES := 4

  const SINK_DISCARD := 0
  const SINK_VMC := 1
  const SINK_ENCLAVE := 2
  const SINK_LEGACY := 3
  const MAX_SINKS := 4

  // Numbers of the MAVLink common message set.
  const MSG_PARAM_SET := 23
  const MSG_COMMAND_LONG := 76
  const MSG_MEMINFO := 152
  const CMD_DO_FENCE_ENABLE := 207

  /** `char param_id[16]` */
  type ParamId = s: seq<char> | |s| == 16 witness seq(16, _ => '\0')

  function BlankParamId(): ParamId {
    seq(16, _ => '\0')
  }

  /** A parsed frame, with the fields the decode functions read from its payload. */
  datatype Mavlink = Mavlink(msgid: nat, seqno: byte, compid: byte, len: byte,
                             command: nat, param1: real, paramId: ParamId, paramValue: real)

  /** `struct message_t` as a value; an attribute is the set of its bits. */
  datatype Msg = Msg(mav: Mavlink, sinks: set<nat>, source: nat, attribute: set<nat>)

  /** What a check returns, and the attribute it leaves behind its pointer. */
  datatype Verdict = Verdict(secure: bool, attribute: set<nat>)

  datatype Policy = Policy(id: nat, matches: Msg -> bool, check: Msg -> Verdict)

  // Route table.

  function Route(source: nat): set<nat> {
    if source == SOURCE_VMC then {SINK_LEGACY, SINK_ENCLAVE}
    else if source == SOURCE_LEGACY || source == SOURCE_ENCLAVE then {SINK_VMC}
    else {}
  }

  // Match and check functions.

  predicate MatchAll(m: Msg) {
    true
  }

  predicate MatchVmc(m: Msg) {
    m.source == SOURCE_VMC
  }

  predicate MatchMmc(m: Msg) {
    m.source == SOURCE_LEGACY || m.source >= SOURCE_ENCLAVE
  }

  function CheckAccept(m: Msg): Verdict {
    Verdict(true, m.attribute)
  }

  function RejectMeminfo(m: Msg): Verdict {
    Verdict(if m.mav.msgid == MSG_MEMINFO then false else true, m.attribute)
  }

  function CharAt(s: seq<char>, i: nat): char {
    if i < |s| then s[i] else '\0'
  }

  /** strncmp from position `i` on: zero, or the difference of the first differing characters. */
  function Strncmp(a: seq<char>, b: seq<char>, i: nat, n: nat): int
    requires i <= n
    decreases n - i
  {
    if i == n then 0
    else if CharAt(a, i) != CharAt(b, i) then CharAt(a, i) as int - CharAt(b, i) as int
    else if CharAt(a, i) == '\0' then 0
    else Strncmp(a, b, i + 1, n)
  }

  const FENCE_ENABLE := "FENCE_ENABLE"

  function RejectDisableGeofence(m: Msg): Verdict {
    Verdict(
      if m.mav.msgid == MSG_COMMAND_LONG then
        if m.mav.command == CMD_DO_FENCE_ENABLE && m.mav.param1 == 0.0 then false else true
      else if m.mav.msgid == MSG_PARAM_SET then
        if Strncmp(m.mav.paramId, FENCE_ENABLE, 0, 12) == 0 && m.mav.paramValue == 0.0 then false else true
      else true,
      m.attribute)
  }

  /** The table security_policy_init registers; the waypoint policy is not in it. */
  function DefaultPolicies(): seq<Policy> {
    [Policy(0, MatchVmc, CheckAccept),
     Policy(2, MatchMmc, RejectDisableGeofence),
     Policy(3, MatchMmc, RejectMeminfo)]
  }

  // Inspection.

  /** The policy loop from position `i` on: the verdict and the message with its accumulated attribute. */
  function InspectFrom(policies: seq<Policy>, i: nat, m: Msg): (bool, Msg)
    requires i <= |policies|
    decreases |policies| - i
  {
    if i == |policies| then (true, m)
    else if !policies[i].matches(m) then InspectFrom(policies, i + 1, m)
    else
      var v := policies[i].check(m);
      var m' := m.(attribute := m.attribute + v.attribute);
      if !v.secure then (false, m') else InspectFrom(policies, i + 1, m')
  }

  function Inspect(policies: seq<Policy>, enabled: bool, m: Msg): (bool, Msg) {
    if enabled then InspectFrom(policies, 0, m) else (true, m)
  }

  ghost predicate Accepts(p: Policy, m: Msg) {
    p.matches(m) ==> p.check(m).secure
  }

  /** The verdict of the policy does not depend on the attribute. */
  ghost predicate Blind(p: Policy) {
    forall m: Msg, a: set<nat> :: Accepts(p, m.(attribute := a)) == Accepts(p, m)
  }

  /** The message as policy `k` sees it: its attribute has gathered what the matching policies before it
      left, from policy `i` on. */
  function SeenBy(policies: seq<Policy>, i: nat, k: nat, m: Msg): Msg
    requires i <= k <= |policies|
    decreases k - i
  {
    if i == k then m
    else if !policies[i].matches(m) then SeenBy(policies, i + 1, k, m)
    else SeenBy(policies, i + 1, k, m.(attribute := m.attribute + policies[i].check(m).attribute))
  }

  /** For any policies, the loop with its early exit is the conjunction of all matching checks, each on
      the message as it sees it. */
  lemma {:induction false} VerdictIsConjunction(policies: seq<Policy>, i: nat, m: Msg)
    requires i <= |policies|
    ensures InspectFrom(policies, i, m).0
            <==> (forall k :: i <= k < |policies| ==> Accepts(policies[k], SeenBy(policies, i, k, m)))
    ensures InspectFrom(policies, i, m).0 ==> InspectFrom(policies, i, m).1 == SeenBy(policies, i, |policies|, m)
    decreases |policies| - i
  {
    if i < |policies| {
      var m' := if policies[i].matches(m) then m.(attribute := m.attribute + policies[i].check(m).attribute) else m;
      VerdictIsConjunction(policies, i + 1, m');
      assert forall k :: i < k <= |policies| ==> SeenBy(policies, i, k, m) == SeenBy(policies, i + 1, k, m');
      assert SeenBy(policies, i, i, m) == m;
    }
  }

  /** Everything a policy sees but the attribute is the routed message, and attributes only grow. */
  lemma {:induction false} SeenByDiffersInAttribute(policies: seq<Policy>, i: nat, k: nat, m: Msg)
    requires i <= k <= |policies|
    ensures var seen := SeenBy(policies, i, k, m);
            seen == m.(attribute := seen.attribute) && m.attribute <= seen.attribute
    decreases k - i
  {
    if i < k {
      var m' := if policies[i].matches(m) then m.(attribute := m.attribute + policies[i].check(m).attribute) else m;
      SeenByDiffersInAttribute(policies, i + 1, k, m');
    }
  }

  /** What one policy leaves for the next: the bits of its check join the attribute, if it matches. */
  lemma {:induction false} SeenNext(policies: seq<Policy>, i: nat, k: nat, m: Msg)
    requires i <= k < |policies|
    ensures var seen, p := SeenBy(policies, i, k, m), policies[k];
            SeenBy(policies, i, k + 1, m)
            == if p.matches(seen) then seen.(attribute := seen.attribute + p.check(seen).attribute) else seen
    decreases k - i
  {
    if i < k {
      var m' := if policies[i].matches(m) then m.(attribute := m.attribute + policies[i].check(m).attribute) else m;
      SeenNext(policies, i + 1, k, m');
    }
  }

  /** A rejected message was accepted by the policies before one that rejects it, and carries the bits of all
      of them, those of the rejecting check included. */
  lemma {:induction false} RejectionIsFirst(policies: seq<Policy>, i: nat, m: Msg) returns (k: nat)
    requires i <= |policies| && !InspectFrom(policies, i, m).0
    ensures i <= k < |policies| && !Accepts(policies[k], SeenBy(policies, i, k, m))
    ensures forall l :: i <= l < k ==> Accepts(policies[l], SeenBy(policies, i, l, m))
    ensures InspectFrom(policies, i, m).1 == SeenBy(policies, i, k + 1, m)
    decreases |policies| - i
  {
    if !Accepts(policies[i], m) {
      k := i;
    } else {
      var m' := if policies[i].matches(m) then m.(attribute := m.attribute + policies[i].check(m).attribute) else m;
      k := RejectionIsFirst(policies, i + 1, m');
      assert forall l :: i < l <= k + 1 ==> SeenBy(policies, i, l, m) == SeenBy(policies, i + 1, l, m');
      assert SeenBy(policies, i, i, m) == m;
    }
  }

  /** What registering one more policy means: a message is accepted exactly when it was before and the new
      policy accepts it as the others left it. */
  lemma RegisteredPolicyDecidesLast(policies: seq<Policy>, p: Policy, m: Msg)
    ensures InspectFrom(policies + [p], 0, m).0
            <==> InspectFrom(policies, 0, m).0 && Accepts(p, SeenBy(policies, 0, |policies|, m))
  {
    var more, n := policies + [p], |policies|;
    VerdictIsConjunction(policies, 0, m);
    VerdictIsConjunction(more, 0, m);
    forall k | 0 <= k <= n ensures SeenBy(more, 0, k, m) == SeenBy(policies, 0, k, m) {
      SeenByAppend(policies, p, 0, k, m);
    }
    assert more[n] == p && forall k :: 0 <= k < n ==> more[k] == policies[k];
    if InspectFrom(policies, 0, m).0 && Accepts(p, SeenBy(policies, 0, n, m)) {
      assert forall k :: 0 <= k < n + 1 ==> Accepts(more[k], SeenBy(more, 0, k, m));
    }
    if InspectFrom(more, 0, m).0 {
      assert Accepts(more[n], SeenBy(more, 0, n, m));
      assert forall k :: 0 <= k < n ==> Accepts(more[k], SeenBy(more, 0, k, m));
    }
  }

  lemma {:induction false} SeenByAppend(policies: seq<Policy>, p: Policy, i: nat, k: nat, m: Msg)
    requires i <= k <= |policies|
    ensures SeenBy(policies + [p], i, k, m) == SeenBy(policies, i, k, m)
    decreases k - i
  {
    if i < k {
      var m' := if policies[i].matches(m) then m.(attribute := m.attribute + policies[i].check(m).attribute) else m;
      SeenByAppend(policies, p, i + 1, k, m');
    }
  }

  /** For policies that are blind to the attribute, that is the conjunction of the matching checks on the
      original message. */
  lemma BlindVerdict(policies: seq<Policy>, m: Msg)
    requires forall k :: 0 <= k < |policies| ==> Blind(policies[k])
    ensures InspectFrom(policies, 0, m).0 <==> (forall k :: 0 <= k < |policies| ==> Accepts(policies[k], m))
  {
    VerdictIsConjunction(policies, 0, m);
    forall k | 0 <= k < |policies|
      ensures Accepts(policies[k], SeenBy(policies, 0, k, m)) <==> Accepts(policies[k], m)
    {
      SeenByDiffersInAttribute(policies, 0, k, m);
      assert Blind(policies[k]);
    }
  }

  ghost predicate SameVerdict(policies: seq<Policy>, permuted: seq<Policy>, m: Msg) {
    InspectFrom(permuted, 0, m).0 == InspectFrom(policies, 0, m).0
  }

  /** Reordering blind policies never changes the verdict. */
  lemma OrderIsIrrelevant(policies: seq<Policy>, permuted: seq<Policy>, m: Msg)
    requires multiset(policies) == multiset(permuted)
    requires forall k :: 0 <= k < |policies| ==> Blind(policies[k])
    ensures SameVerdict(policies, permuted, m)
  {
    forall p: Policy ensures p in policies <==> p in permuted {
      assert p in policies <==> p in multiset(policies);
      assert p in permuted <==> p in multiset(permuted);
    }
    forall k | 0 <= k < |permuted| ensures Blind(permuted[k]) {
      assert permuted[k] in policies;
    }
    BlindVerdict(policies, m);
    BlindVerdict(permuted, m);
    assert (forall k :: 0 <= k < |policies| ==> Accepts(policies[k], m))
           <==> (forall p :: p in policies ==> Accepts(p, m));
    assert (forall k :: 0 <= k < |permuted| ==> Accepts(permuted[k], m))
           <==> (forall p :: p in permuted ==> Accepts(p, m));
  }

  ghost predicate BlindBut(policies: seq<Policy>, p: Policy) {
    forall k :: 0 <= k < |policies| ==> policies[k] == p || Blind(policies[k])
  }

  /** No list that holds besides `p` only blind policies depends on its order. */
  ghost predicate OrderFree(p: Policy) {
    forall policies, permuted, m ::
      multiset(policies) == multiset(permuted) && BlindBut(policies, p)
      ==> SameVerdict(policies, permuted, m)
  }

  /** The exact condition: the order never matters among the policies blind to the attribute, and a policy can
      be added to them without making it matter exactly when it is blind itself. */
  lemma OrderIsIrrelevantIff(p: Policy)
    ensures Blind(p) <==> OrderFree(p)
  {
    if Blind(p) {
      forall policies, permuted, m | multiset(policies) == multiset(permuted) && BlindBut(policies, p)
        ensures SameVerdict(policies, permuted, m)
      {
        OrderIsIrrelevant(policies, permuted, m);
      }
    } else {
      var m: Msg, a: set<nat> :| Accepts(p, m.(attribute := a)) != Accepts(p, m);
      var all := a + m.attribute;
      if Accepts(p, m.(attribute := all)) != Accepts(p, m) {
        OrderMatters(p, m, all);
      } else {
        assert m.(attribute := a).(attribute := all) == m.(attribute := all);
        OrderMatters(p, m.(attribute := a), all);
      }
    }
  }

  /** A policy that accepts every message and marks it with the bits of `a`. */
  function Marking(a: set<nat>): Policy {
    Policy(0, MatchAll, m => Verdict(true, a))
  }

  /** Where a verdict changes with the attribute, a blind policy that only adds the missing bits makes the
      order matter: before `p` it changes the verdict, after `p` it does not. */
  lemma OrderMatters(p: Policy, m: Msg, a: set<nat>)
    requires m.attribute <= a && Accepts(p, m.(attribute := a)) != Accepts(p, m)
    ensures Blind(Marking(a)) && !SameVerdict([p, Marking(a)], [Marking(a), p], m)
    ensures !OrderFree(p)
  {
    var q := Marking(a);
    assert Blind(q);
    TwoPolicies(p, q, m);
    TwoPolicies(q, p, m);
    assert m.attribute + q.check(m).attribute == a;
    assert multiset([p, q]) == multiset([q, p]);
  }

  /** Two policies: the second judges what the first left. */
  lemma TwoPolicies(p: Policy, q: Policy, m: Msg)
    ensures var m' := if p.matches(m) then m.(attribute := m.attribute + p.check(m).attribute) else m;
            InspectFrom([p, q], 0, m).0 <==> Accepts(p, m) && Accepts(q, m')
  {
    var m' := if p.matches(m) then m.(attribute := m.attribute + p.check(m).attribute) else m;
    assert InspectFrom([p, q], 2, m').0;
    assert InspectFrom([p, q], 1, m').0 <==> Accepts(q, m');
  }

  function RejectMarked(m: Msg): Verdict {
    Verdict(0 !in m.attribute, m.attribute)
  }

  /** A concrete case: the same two policies accept an unmarked message in one order and reject it in the
      other. */
  lemma OrderMattersOtherwise(m: Msg)
    requires 0 !in m.attribute
    ensures var mark, reject := Marking({0}), Policy(1, MatchAll, RejectMarked);
            && InspectFrom([reject, mark], 0, m).0
            && !InspectFrom([mark, reject], 0, m).0
            && !Blind(reject)
  {
    var mark, reject := Marking({0}), Policy(1, MatchAll, RejectMarked);
    TwoPolicies(mark, reject, m);
    TwoPolicies(reject, mark, m);
    assert Accepts(reject, m) && !Accepts(reject, m.(attribute := {0}));
  }

  // What the default table means.

  lemma {:induction false} StrncmpIsPrefix(a: seq<char>, i: nat)
    requires |a| >= 12 && i <= 12
    ensures Strncmp(a, FENCE_ENABLE, i, 12) == 0 <==> a[i..12] == FENCE_ENABLE[i..12]
    decreases 12 - i
  {
    if i < 12 {
      assert FENCE_ENABLE[i] != '\0';
      StrncmpIsPrefix(a, i + 1);
      assert a[i..12] == [a[i]] + a[i + 1..12];
      assert FENCE_ENABLE[i..12] == [FENCE_ENABLE[i]] + FENCE_ENABLE[i + 1..12];
    }
  }

  /** The messages the gateway is there to keep from the autopilot. */
  predicate Forbidden(mav: Mavlink) {
    || mav.msgid == MSG_MEMINFO
    || (mav.msgid == MSG_COMMAND_LONG && mav.command == CMD_DO_FENCE_ENABLE && mav.param1 == 0.0)
    || (mav.msgid == MSG_PARAM_SET && mav.paramId[..12] == FENCE_ENABLE && mav.paramValue == 0.0)
  }

  /** The default table rejects exactly the forbidden messages of the untrusted sources, and marks none. */
  lemma DefaultVerdict(m: Msg)
    ensures InspectFrom(DefaultPolicies(), 0, m).0
            <==> !((m.source == SOURCE_LEGACY || m.source >= SOURCE_ENCLAVE) && Forbidden(m.mav))
    ensures InspectFrom(DefaultPolicies(), 0, m).1 == m
  {
    DefaultPoliciesMarkNothing(0, m);
    StrncmpIsPrefix(m.mav.paramId, 0);
    assert FENCE_ENABLE[0..12] == FENCE_ENABLE;
    DefaultPoliciesAreBlind();
    var ps := DefaultPolicies();
    BlindVerdict(ps, m);
    assert (forall k :: 0 <= k < |ps| ==> Accepts(ps[k], m))
           <==> Accepts(ps[0], m) && Accepts(ps[1], m) && Accepts(ps[2], m);
  }

  lemma {:induction false} DefaultPoliciesMarkNothing(i: nat, m: Msg)
    requires i <= |DefaultPolicies()|
    ensures InspectFrom(DefaultPolicies(), i, m).1 == m
    decreases |DefaultPolicies()| - i
  {
    if i < |DefaultPolicies()| {
      assert DefaultPolicies()[i].check(m).attribute == m.attribute;
      assert m.(attribute := m.attribute + m.attribute) == m;
      DefaultPoliciesMarkNothing(i + 1, m);
    }
  }

  lemma DefaultPoliciesAreBlind()
    ensures forall k :: 0 <= k < |DefaultPolicies()| ==> Blind(DefaultPolicies()[k])
  {
  }
}
