/** Applying a mapping template to a device and making one from a device (`ui_apply_mapping_template`,
    `ui_create_mapping_template_from_device`). The parameter `fold` is the text normalisation
    `strip().casefold()`. */
module MappingTemplates {
  import opened Wrappers

  datatype Point = Point(name: Option<string>, objectType: string, enabled: bool, role: Option<string>, displayLabel: Option<string>)

  datatype Rule = Rule(role: string, displayLabel: Option<string>, matchValue: string, objectType: Option<string>, required: bool)

  datatype Outcome = MissingRequired | UnmatchedOptional | ManyMatches(count: nat) | AlreadyClaimed | Retained | Bound

  datatype Tally = Tally(matched: nat, unmatchedOptional: nat, missingRequired: nat, conflicts: seq<(string, Outcome)>, retained: nat)

  type Fold = string -> string

  /** The unique index on device and logical role, which covers disabled points too. */
  predicate UniqueIndex(points: seq<Point>) {
    forall i, j | 0 <= i < j < |points| :: points[i].role.Some? ==> points[i].role != points[j].role
  }

  predicate UniqueRules(rules: seq<Rule>) {
    forall i, j | 0 <= i < j < |rules| :: rules[i].role != rules[j].role
  }

  // ---- What a run is to do, in the points' and the rules' own fields ----

  /** An enabled point whose name is the rule's value up to case and surrounding space, and whose type
      is the rule's if it names one. */
  ghost predicate Suits(fold: Fold, p: Point, r: Rule) {
    && p.enabled
    && (match p.name case Some(name) => fold(name) == fold(r.matchValue) case None => fold("") == fold(r.matchValue))
    && (match r.objectType case Some(t) => t == "" || p.objectType == t case None => true)
  }

  ghost function Suited(fold: Fold, points: seq<Point>, r: Rule): set<nat> {
    set i: nat | i < |points| && Suits(fold, points[i], r)
  }

  /** The rule at `k` is the first whose only match is the point at `i`. */
  ghost predicate Claims(fold: Fold, points: seq<Point>, rules: seq<Rule>, k: nat, i: nat)
    requires k < |rules|
  {
    Suited(fold, points, rules[k]) == {i} && forall e | 0 <= e < k :: Suited(fold, points, rules[e]) != {i}
  }

  ghost predicate IsFree(points: seq<Point>, role: string) {
    forall j | 0 <= j < |points| && points[j].enabled :: points[j].role != Some(role)
  }

  /** The point gains the rule's role and label if it has no role and no enabled point has that role, or
      the label alone if it has the role and no label; in all other cases it stays as it was. */
  ghost predicate IsBoundBy(points: seq<Point>, p: Point, r: Rule, after: Point) {
    && after.name == p.name && after.objectType == p.objectType && after.enabled == p.enabled
    && if p.role == None && IsFree(points, r.role) then after.role == Some(r.role) && after.displayLabel == r.displayLabel
       else if p.role == Some(r.role) && p.displayLabel == None then after.role == p.role && after.displayLabel == r.displayLabel
       else after.role == p.role && after.displayLabel == p.displayLabel
  }

  ghost predicate PointIs(fold: Fold, points: seq<Point>, rules: seq<Rule>, i: nat, after: Point)
    requires i < |points|
  {
    && (forall k | 0 <= k < |rules| && Claims(fold, points, rules, k, i) :: IsBoundBy(points, points[i], rules[k], after))
    && ((forall k | 0 <= k < |rules| :: !Claims(fold, points, rules, k, i)) ==> after == points[i])
  }

  /** What becomes of the rule at `k`. */
  ghost predicate OutcomeIs(fold: Fold, points: seq<Point>, rules: seq<Rule>, k: nat, o: Outcome)
    requires k < |rules|
  {
    var suited := Suited(fold, points, rules[k]);
    if |suited| == 0 then o == if rules[k].required then MissingRequired else UnmatchedOptional
    else if |suited| > 1 then o == ManyMatches(|suited|)
    else
      exists i :: i in suited && if !Claims(fold, points, rules, k, i) then o == AlreadyClaimed
                                 else if points[i].role == None && IsFree(points, rules[k].role) then o == Bound
                                 else o == Retained
  }

  /** The answer counts each outcome, and lists the conflicts. */
  ghost predicate TallyIs(rules: seq<Rule>, outcomes: seq<Outcome>, t: Tally)
    requires |rules| == |outcomes|
  {
    && t.matched == |Places(outcomes, Bound)| && t.retained == |Places(outcomes, Retained)|
    && t.missingRequired == |Places(outcomes, MissingRequired)| && t.unmatchedOptional == |Places(outcomes, UnmatchedOptional)|
    && t.matched + t.retained + t.missingRequired + t.unmatchedOptional + |t.conflicts| == |rules|
    && (forall c | c in t.conflicts :: exists k :: 0 <= k < |rules| && c == (rules[k].role, outcomes[k]))
    && (forall k | 0 <= k < |rules| && (outcomes[k].ManyMatches? || outcomes[k].AlreadyClaimed?) :: (rules[k].role, outcomes[k]) in t.conflicts)
  }

  ghost function Places(outcomes: seq<Outcome>, o: Outcome): set<nat> {
    set k: nat | k < |outcomes| && outcomes[k] == o
  }

  // ---- Matching ----

  predicate Matches(fold: Fold, p: Point, r: Rule) {
    && p.enabled
    && fold(if p.name.Some? then p.name.value else "") == fold(r.matchValue)
    && (r.objectType == None || r.objectType == Some("") || r.objectType == Some(p.objectType))
  }

  function Matching(fold: Fold, points: seq<Point>, r: Rule): (m: seq<nat>)
    ensures forall a | 0 <= a < |m| :: m[a] < |points|
  {
    if points == [] then []
    else
      var last := |points| - 1;
      Matching(fold, points[..last], r) + if Matches(fold, points[last], r) then [last] else []
  }

  lemma {:induction false} MatchingFinds(fold: Fold, points: seq<Point>, r: Rule, i: nat)
    ensures i in Matching(fold, points, r) <==> i < |points| && Matches(fold, points[i], r)
  {
    if points != [] {
      var last := |points| - 1;
      MatchingFinds(fold, points[..last], r, i);
    }
  }

  lemma {:induction false} MatchingHasNoDuplicates(fold: Fold, points: seq<Point>, r: Rule)
    ensures forall a, b | 0 <= a < b < |Matching(fold, points, r)| :: Matching(fold, points, r)[a] < Matching(fold, points, r)[b]
  {
    if points != [] {
      MatchingHasNoDuplicates(fold, points[..|points| - 1], r);
    }
  }

  predicate RoleUsed(points: seq<Point>, role: string) {
    exists i | 0 <= i < |points| :: points[i].enabled && points[i].role == Some(role)
  }

  // ---- What a run does, in terms of the points before it ----

  /** The first rule whose only match is the point at `i`. */
  function Claimer(fold: Fold, points: seq<Point>, rules: seq<Rule>, i: nat): Option<Rule> {
    if rules == [] then None
    else
      var last := |rules| - 1;
      var earlier := Claimer(fold, points, rules[..last], i);
      if earlier.Some? then earlier
      else if Matching(fold, points, rules[last]) == [i] then Some(rules[last])
      else None
  }

  function UnderRule(points: seq<Point>, p: Point, r: Rule): Point {
    if p.role == Some(r.role) then (if p.displayLabel.None? then p.(displayLabel := r.displayLabel) else p)
    else if p.role.Some? || RoleUsed(points, r.role) then p
    else p.(role := Some(r.role), displayLabel := r.displayLabel)
  }

  function AppliedPoint(fold: Fold, points: seq<Point>, rules: seq<Rule>, i: nat): Point
    requires i < |points|
  {
    match Claimer(fold, points, rules, i)
    case Some(r) => UnderRule(points, points[i], r)
    case None => points[i]
  }

  function Applied(fold: Fold, points: seq<Point>, rules: seq<Rule>): (after: seq<Point>)
    ensures |after| == |points|
    ensures forall i | 0 <= i < |points| :: after[i] == AppliedPoint(fold, points, rules, i)
  {
    seq(|points|, i requires 0 <= i < |points| => AppliedPoint(fold, points, rules, i))
  }

  function OutcomeOf(fold: Fold, points: seq<Point>, rules: seq<Rule>, k: nat): Outcome
    requires k < |rules|
  {
    var r := rules[k];
    var m := Matching(fold, points, r);
    if m == [] then (if r.required then MissingRequired else UnmatchedOptional)
    else if |m| != 1 then ManyMatches(|m|)
    else if Claimer(fold, points, rules[..k], m[0]).Some? then AlreadyClaimed
    else if points[m[0]].role.Some? || RoleUsed(points, r.role) then Retained
    else Bound
  }

  function Outcomes(fold: Fold, points: seq<Point>, rules: seq<Rule>): (o: seq<Outcome>)
    ensures |o| == |rules|
    ensures forall k | 0 <= k < |rules| :: o[k] == OutcomeOf(fold, points, rules, k)
  {
    seq(|rules|, k requires 0 <= k < |rules| => OutcomeOf(fold, points, rules, k))
  }

  // ---- The tally ----

  function Counted(t: Tally, role: string, o: Outcome): Tally {
    match o
    case MissingRequired => t.(missingRequired := t.missingRequired + 1)
    case UnmatchedOptional => t.(unmatchedOptional := t.unmatchedOptional + 1)
    case ManyMatches(_) => t.(conflicts := t.conflicts + [(role, o)])
    case AlreadyClaimed => t.(conflicts := t.conflicts + [(role, o)])
    case Retained => t.(retained := t.retained + 1)
    case Bound => t.(matched := t.matched + 1)
  }

  function TallyOf(rules: seq<Rule>, outcomes: seq<Outcome>): Tally
    requires |rules| == |outcomes|
  {
    if rules == [] then Tally(0, 0, 0, [], 0)
    else
      var last := |rules| - 1;
      Counted(TallyOf(rules[..last], outcomes[..last]), rules[last].role, outcomes[last])
  }

  // ---- The endpoint ----

  method FindMatches(fold: Fold, points: seq<Point>, r: Rule) returns (matches: seq<nat>)
    ensures matches == Matching(fold, points, r)
  {
    matches := [];
    for i := 0 to |points|
      invariant matches == Matching(fold, points[..i], r)
    {
      assert points[..i + 1][..i] == points[..i];
      if Matches(fold, points[i], r) {
        matches := matches + [i];
      }
    }
    assert points[..|points|] == points;
  }

  /** The points while the first `k` rules have been applied to `before`. */
  ghost predicate PartlyApplied(fold: Fold, before: seq<Point>, points: seq<Point>, rules: seq<Rule>, k: nat)
    requires k <= |rules|
  {
    && |points| == |before|
    && forall i | 0 <= i < |points| :: points[i] == AppliedPoint(fold, before, rules[..k], i)
  }

  lemma {:induction false} ClaimerIsARule(fold: Fold, points: seq<Point>, rules: seq<Rule>, i: nat)
    ensures match Claimer(fold, points, rules, i)
            case Some(r) => r in rules && Matching(fold, points, r) == [i]
            case None => forall r | r in rules :: Matching(fold, points, r) != [i]
  {
    if rules != [] {
      ClaimerIsARule(fold, points, rules[..|rules| - 1], i);
    }
  }

  /** The rules so far use only their own roles, so they do not decide whether a later role is used. */
  lemma RoleStillUnused(fold: Fold, before: seq<Point>, points: seq<Point>, rules: seq<Rule>, k: nat)
    requires UniqueRules(rules) && k < |rules| && PartlyApplied(fold, before, points, rules, k)
    ensures RoleUsed(points, rules[k].role) <==> RoleUsed(before, rules[k].role)
  {
    var role := rules[k].role;
    forall i | 0 <= i < |points|
      ensures points[i].enabled == before[i].enabled
      ensures points[i].role == Some(role) <==> before[i].role == Some(role)
    {
      ClaimerIsARule(fold, before, rules[..k], i);
      assert points[i] == AppliedPoint(fold, before, rules[..k], i);
    }
  }

  lemma MatchingIgnoresRoles(fold: Fold, before: seq<Point>, points: seq<Point>, r: Rule)
    requires |points| == |before|
    requires forall i | 0 <= i < |points| :: points[i].(role := None, displayLabel := None) == before[i].(role := None, displayLabel := None)
    ensures Matching(fold, points, r) == Matching(fold, before, r)
  {
    if points != [] {
      var last := |points| - 1;
      MatchingIgnoresRoles(fold, before[..last], points[..last], r);
      assert points[last].(role := None, displayLabel := None) == before[last].(role := None, displayLabel := None);
    }
  }

  lemma ClaimerNext(fold: Fold, points: seq<Point>, rules: seq<Rule>, k: nat, i: nat)
    requires k < |rules|
    ensures Claimer(fold, points, rules[..k + 1], i) ==
      if Claimer(fold, points, rules[..k], i).Some? then Claimer(fold, points, rules[..k], i)
      else if Matching(fold, points, rules[k]) == [i] then Some(rules[k])
      else None
  {
    assert rules[..k + 1][..k] == rules[..k];
  }

  lemma SameMatches(fold: Fold, before: seq<Point>, points: seq<Point>, rules: seq<Rule>, k: nat, r: Rule)
    requires k <= |rules| && PartlyApplied(fold, before, points, rules, k)
    ensures Matching(fold, points, r) == Matching(fold, before, r)
  {
    forall i | 0 <= i < |points|
      ensures points[i].(role := None, displayLabel := None) == before[i].(role := None, displayLabel := None)
    {
      assert points[i] == AppliedPoint(fold, before, rules[..k], i);
    }
    MatchingIgnoresRoles(fold, before, points, r);
  }

  /** A rule that matches one unclaimed point changes that point alone; any other changes nothing. */
  lemma NextRule(fold: Fold, before: seq<Point>, points: seq<Point>, rules: seq<Rule>, k: nat)
    requires k < |rules| && PartlyApplied(fold, before, points, rules, k)
    ensures var m := Matching(fold, before, rules[k]);
      if |m| == 1 && Claimer(fold, before, rules[..k], m[0]) == None then
        && points[m[0]] == before[m[0]]
        && PartlyApplied(fold, before, points[m[0] := UnderRule(before, before[m[0]], rules[k])], rules, k + 1)
      else PartlyApplied(fold, before, points, rules, k + 1)
  {
    var m := Matching(fold, before, rules[k]);
    forall i | 0 <= i < |points|
      ensures points[i] == AppliedPoint(fold, before, rules[..k], i)
      ensures if m == [i] && Claimer(fold, before, rules[..k], i) == None
              then AppliedPoint(fold, before, rules[..k + 1], i) == UnderRule(before, before[i], rules[k])
              else AppliedPoint(fold, before, rules[..k + 1], i) == points[i]
    {
      ClaimerNext(fold, before, rules, k, i);
    }
  }

  ghost predicate IsClaimed(fold: Fold, before: seq<Point>, rules: seq<Rule>, claimed: set<nat>) {
    forall i | 0 <= i < |before| :: i in claimed <==> Claimer(fold, before, rules, i).Some?
  }

  lemma NextClaims(fold: Fold, before: seq<Point>, rules: seq<Rule>, k: nat, claimed: set<nat>)
    requires k < |rules| && IsClaimed(fold, before, rules[..k], claimed)
    ensures var m := Matching(fold, before, rules[k]);
      IsClaimed(fold, before, rules[..k + 1], if |m| == 1 then claimed + {m[0]} else claimed)
  {
    forall i | 0 <= i < |before| {
      ClaimerNext(fold, before, rules, k, i);
    }
  }

  lemma TallyNext(rules: seq<Rule>, outcomes: seq<Outcome>, k: nat)
    requires k < |rules| == |outcomes|
    ensures TallyOf(rules[..k + 1], outcomes[..k + 1]) == Counted(TallyOf(rules[..k], outcomes[..k]), rules[k].role, outcomes[k])
  {
    assert rules[..k + 1][..k] == rules[..k] && outcomes[..k + 1][..k] == outcomes[..k];
  }

  lemma FullyApplied(fold: Fold, before: seq<Point>, points: seq<Point>, rules: seq<Rule>)
    requires PartlyApplied(fold, before, points, rules, |rules|)
    ensures points == Applied(fold, before, rules)
  {
    assert rules[..|rules|] == rules;
  }

  // ---- The description is met ----

  lemma MatchingIsSuited(fold: Fold, points: seq<Point>, r: Rule)
    ensures |Matching(fold, points, r)| == |Suited(fold, points, r)|
    ensures forall i: nat :: i in Matching(fold, points, r) <==> i in Suited(fold, points, r)
  {
    var m := Matching(fold, points, r);
    forall i: nat
      ensures i in m <==> i in Suited(fold, points, r)
    {
      MatchingFinds(fold, points, r, i);
    }
    MatchingHasNoDuplicates(fold, points, r);
    ElementsOfIncreasing(m, Suited(fold, points, r));
  }

  lemma {:induction false} ElementsOfIncreasing(m: seq<nat>, elements: set<nat>)
    requires forall a, b | 0 <= a < b < |m| :: m[a] < m[b]
    requires forall i: nat :: i in m <==> i in elements
    ensures |m| == |elements|
  {
    if m == [] {
      assert elements == {};
    } else {
      var last := m[|m| - 1];
      assert m == m[..|m| - 1] + [last];
      assert last !in m[..|m| - 1];
      ElementsOfIncreasing(m[..|m| - 1], elements - {last});
    }
  }

  lemma OnlyMatch(fold: Fold, points: seq<Point>, r: Rule, i: nat)
    ensures Matching(fold, points, r) == [i] <==> Suited(fold, points, r) == {i}
  {
    var m, suited := Matching(fold, points, r), Suited(fold, points, r);
    MatchingIsSuited(fold, points, r);
    if m == [i] {
      forall j | j in suited
        ensures j == i
      {
        assert j in m;
      }
      assert i in m;
    }
    if suited == {i} {
      assert m[0] in m;
    }
  }

  lemma ClaimsInPrefix(fold: Fold, points: seq<Point>, rules: seq<Rule>, last: nat, k: nat, i: nat)
    requires k < last <= |rules|
    ensures Claims(fold, points, rules[..last], k, i) <==> Claims(fold, points, rules, k, i)
  {
    assert forall e | 0 <= e <= k :: rules[..last][e] == rules[e];
  }

  lemma {:induction false} ClaimerClaims(fold: Fold, points: seq<Point>, rules: seq<Rule>, i: nat)
    ensures match Claimer(fold, points, rules, i)
            case None => forall k | 0 <= k < |rules| :: Suited(fold, points, rules[k]) != {i}
            case Some(r) => exists k :: 0 <= k < |rules| && rules[k] == r && Claims(fold, points, rules, k, i)
  {
    if rules != [] {
      var last := |rules| - 1;
      var earlier := Claimer(fold, points, rules[..last], i);
      ClaimerClaims(fold, points, rules[..last], i);
      OnlyMatch(fold, points, rules[last], i);
      if earlier.Some? {
        var k :| 0 <= k < last && rules[..last][k] == earlier.value && Claims(fold, points, rules[..last], k, i);
        ClaimsInPrefix(fold, points, rules, last, k, i);
      } else {
        assert forall e | 0 <= e < last :: rules[..last][e] == rules[e];
        assert Suited(fold, points, rules[last]) == {i} ==> Claims(fold, points, rules, last, i);
      }
    }
  }

  lemma RoleUsedIs(points: seq<Point>, role: string)
    ensures RoleUsed(points, role) <==> !IsFree(points, role)
  {
  }

  lemma OneClaims(fold: Fold, points: seq<Point>, rules: seq<Rule>, k: nat, e: nat, i: nat)
    requires k < |rules| && e < |rules| && Claims(fold, points, rules, k, i) && Claims(fold, points, rules, e, i)
    ensures k == e
  {
  }

  /** Every point after the run, in terms of the points before it. */
  lemma AppliedTells(fold: Fold, points: seq<Point>, rules: seq<Rule>, i: nat)
    requires i < |points|
    ensures PointIs(fold, points, rules, i, Applied(fold, points, rules)[i])
  {
    var claimer := Claimer(fold, points, rules, i);
    ClaimerClaims(fold, points, rules, i);
    if claimer.Some? {
      var e :| 0 <= e < |rules| && rules[e] == claimer.value && Claims(fold, points, rules, e, i);
      RoleUsedIs(points, rules[e].role);
      forall k | 0 <= k < |rules| && Claims(fold, points, rules, k, i)
        ensures k == e
      {
        OneClaims(fold, points, rules, k, e, i);
      }
    }
  }

  lemma OutcomeTells(fold: Fold, points: seq<Point>, rules: seq<Rule>, k: nat)
    requires k < |rules|
    ensures OutcomeIs(fold, points, rules, k, OutcomeOf(fold, points, rules, k))
  {
    var m, suited := Matching(fold, points, rules[k]), Suited(fold, points, rules[k]);
    MatchingIsSuited(fold, points, rules[k]);
    if |m| == 1 {
      var i := m[0];
      assert m == [i];
      OnlyMatch(fold, points, rules[k], i);
      ClaimerClaims(fold, points, rules[..k], i);
      RoleUsedIs(points, rules[k].role);
      assert Claims(fold, points, rules, k, i) <==> Claimer(fold, points, rules[..k], i).None?;
      assert i in suited;
    }
  }

  lemma PlacesNext(outcomes: seq<Outcome>, o: Outcome)
    requires outcomes != []
    ensures var last := |outcomes| - 1;
      |Places(outcomes, o)| == |Places(outcomes[..last], o)| + if outcomes[last] == o then 1 else 0
  {
    var last := |outcomes| - 1;
    assert Places(outcomes, o) == Places(outcomes[..last], o) + if outcomes[last] == o then {last} else {};
  }

  lemma TallyNextIs(rules: seq<Rule>, outcomes: seq<Outcome>, t: Tally)
    requires |rules| == |outcomes| > 0 && TallyIs(rules[..|rules| - 1], outcomes[..|rules| - 1], t)
    ensures TallyIs(rules, outcomes, Counted(t, rules[|rules| - 1].role, outcomes[|rules| - 1]))
  {
    PlacesNext(outcomes, Bound);
    PlacesNext(outcomes, Retained);
    PlacesNext(outcomes, MissingRequired);
    PlacesNext(outcomes, UnmatchedOptional);
    var last := |rules| - 1;
    var t' := Counted(t, rules[last].role, outcomes[last]);
    forall c | c in t'.conflicts
      ensures exists k :: 0 <= k < |rules| && c == (rules[k].role, outcomes[k])
    {
      if c in t.conflicts {
        var k :| 0 <= k < last && c == (rules[..last][k].role, outcomes[..last][k]);
        assert c == (rules[k].role, outcomes[k]);
      } else {
        assert c == (rules[last].role, outcomes[last]);
      }
    }
    forall k | 0 <= k < last && (outcomes[k].ManyMatches? || outcomes[k].AlreadyClaimed?)
      ensures (rules[k].role, outcomes[k]) in t'.conflicts
    {
      assert rules[..last][k] == rules[k] && outcomes[..last][k] == outcomes[k];
    }
  }

  lemma {:induction false} TallyTells(rules: seq<Rule>, outcomes: seq<Outcome>)
    requires |rules| == |outcomes|
    ensures TallyIs(rules, outcomes, TallyOf(rules, outcomes))
  {
    if rules == [] {
      NothingTallied();
    } else {
      var last := |rules| - 1;
      TallyTells(rules[..last], outcomes[..last]);
      TallyNextIs(rules, outcomes, TallyOf(rules[..last], outcomes[..last]));
    }
  }

  lemma NothingTallied()
    ensures TallyIs([], [], Tally(0, 0, 0, [], 0))
  {
    assert Places([], Bound) == Places([], Retained) == Places([], MissingRequired) == Places([], UnmatchedOptional) == {};
  }

  /** The whole run: the points it leads to, each rule's outcome, and the answer. */
  ghost predicate RunIs(fold: Fold, points: seq<Point>, rules: seq<Rule>, after: seq<Point>, outcomes: seq<Outcome>, t: Tally) {
    && |after| == |points| && |outcomes| == |rules|
    && (forall i | 0 <= i < |points| :: PointIs(fold, points, rules, i, after[i]))
    && (forall k | 0 <= k < |rules| :: OutcomeIs(fold, points, rules, k, outcomes[k]))
    && TallyIs(rules, outcomes, t)
  }

  lemma RunTells(fold: Fold, points: seq<Point>, rules: seq<Rule>)
    ensures RunIs(fold, points, rules, Applied(fold, points, rules), Outcomes(fold, points, rules), TallyOf(rules, Outcomes(fold, points, rules)))
  {
    forall i | 0 <= i < |points|
      ensures PointIs(fold, points, rules, i, Applied(fold, points, rules)[i])
    {
      AppliedTells(fold, points, rules, i);
    }
    forall k | 0 <= k < |rules|
      ensures OutcomeIs(fold, points, rules, k, Outcomes(fold, points, rules)[k])
    {
      OutcomeTells(fold, points, rules, k);
    }
    TallyTells(rules, Outcomes(fold, points, rules));
  }

  class SavedDevice {
    var points: seq<Point>

    constructor (points: seq<Point>)
      ensures this.points == points
    {
      this.points := points;
    }

    /** What a rule does to the one point it matches and claims. */
    method BindOrRetain(i: nat, r: Rule) returns (outcome: Outcome)
      requires i < |points|
      modifies this
      ensures points == old(points)[i := UnderRule(old(points), old(points)[i], r)]
      ensures outcome == if old(points)[i].role.Some? || RoleUsed(old(points), r.role) then Retained else Bound
    {
      var p := points[i];
      if p.role == Some(r.role) {
        if p.displayLabel == None && r.displayLabel != None {
          points := points[i := p.(displayLabel := r.displayLabel)];
        }
        outcome := Retained;
      } else if p.role.Some? || RoleUsed(points, r.role) {
        outcome := Retained;
      } else {
        points := points[i := p.(role := Some(r.role), displayLabel := r.displayLabel)];
        outcome := Bound;
      }
    }

    /** One rule; `points` and `claimed` are as the rules before it left them. */
    method ApplyRule(fold: Fold, rules: seq<Rule>, k: nat, claimed: set<nat>, ghost before: seq<Point>)
      returns (outcome: Outcome, claimed': set<nat>)
      requires UniqueRules(rules) && k < |rules|
      requires PartlyApplied(fold, before, points, rules, k) && IsClaimed(fold, before, rules[..k], claimed)
      modifies this
      ensures PartlyApplied(fold, before, points, rules, k + 1) && IsClaimed(fold, before, rules[..k + 1], claimed')
      ensures outcome == OutcomeOf(fold, before, rules, k) && OutcomeIs(fold, before, rules, k, outcome)
    {
      OutcomeTells(fold, before, rules, k);
      var r := rules[k];
      var matches := FindMatches(fold, points, r);
      SameMatches(fold, before, points, rules, k, r);
      NextRule(fold, before, points, rules, k);
      NextClaims(fold, before, rules, k, claimed);
      claimed' := claimed;
      if matches == [] {
        outcome := if r.required then MissingRequired else UnmatchedOptional;
      } else if |matches| != 1 {
        outcome := ManyMatches(|matches|);
      } else if matches[0] in claimed {
        outcome := AlreadyClaimed;
      } else {
        RoleStillUnused(fold, before, points, rules, k);
        assert UnderRule(points, before[matches[0]], r) == UnderRule(before, before[matches[0]], r);
        claimed' := claimed + {matches[0]};
        outcome := BindOrRetain(matches[0], r);
      }
    }

    /** Applies the rules in order; the commit is refused, and everything undone, if the unique index
        on roles would not hold. */
    method ApplyMappingTemplate(fold: Fold, rules: seq<Rule>) returns (committed: bool, tally: Tally)
      requires UniqueRules(rules)
      modifies this
      ensures committed <==> UniqueIndex(Applied(fold, old(points), rules))
      ensures points == if committed then Applied(fold, old(points), rules) else old(points)
      ensures tally == TallyOf(rules, Outcomes(fold, old(points), rules))
      ensures RunIs(fold, old(points), rules, Applied(fold, old(points), rules), Outcomes(fold, old(points), rules), tally)
      ensures var after := Applied(fold, old(points), rules);
        committed <==> forall i, j | 0 <= i < j < |after| && after[i].role.Some? :: after[i].role != after[j].role
    {
      tally := Tally(0, 0, 0, [], 0);
      var before := points;
      var claimed := {};
      ghost var outcomes := Outcomes(fold, before, rules);
      for k := 0 to |rules|
        invariant PartlyApplied(fold, before, points, rules, k) && IsClaimed(fold, before, rules[..k], claimed)
        invariant tally == TallyOf(rules[..k], outcomes[..k])
      {
        var outcome;
        outcome, claimed := ApplyRule(fold, rules, k, claimed, before);
        TallyNext(rules, outcomes, k);
        tally := Counted(tally, rules[k].role, outcome);
      }
      assert rules[..|rules|] == rules && outcomes[..|rules|] == outcomes;
      FullyApplied(fold, before, points, rules);
      RunTells(fold, before, rules);
      committed := UniqueIndex(points);
      if !committed {
        points := before;
      }
    }
  }

  // ---- What a run preserves ----

  /** A binding that exists keeps its role and its label; a disabled point is not touched at all. */
  lemma BindingsAreNeverOverwritten(fold: Fold, points: seq<Point>, rules: seq<Rule>, i: nat)
    requires i < |points|
    ensures var p, after := points[i], Applied(fold, points, rules)[i];
      && after.(role := p.role, displayLabel := p.displayLabel) == p
      && (p.role.Some? ==> after.role == p.role)
      && (p.role.Some? && p.displayLabel.Some? ==> after == p)
      && (!p.enabled ==> after == p)
  {
    ClaimerIsARule(fold, points, rules, i);
    var claimer := Claimer(fold, points, rules, i);
    if claimer.Some? {
      MatchingFinds(fold, points, claimer.value, i);
      assert Matching(fold, points, claimer.value)[0] == i;
    }
  }

  ghost predicate UniqueEnabled(points: seq<Point>) {
    forall i, j | 0 <= i < j < |points| && points[i].enabled && points[j].enabled && points[i].role.Some? ::
      points[i].role != points[j].role
  }

  /** A role that a point gains is its claimer's, which no enabled point had. */
  lemma GainedRole(fold: Fold, points: seq<Point>, rules: seq<Rule>, i: nat)
    requires i < |points| && Applied(fold, points, rules)[i].role != points[i].role
    ensures points[i].role == None && points[i].enabled
    ensures var claimer := Claimer(fold, points, rules, i);
      && claimer.Some? && claimer.value in rules && Matching(fold, points, claimer.value) == [i]
      && Applied(fold, points, rules)[i].role == Some(claimer.value.role)
      && !RoleUsed(points, claimer.value.role)
  {
    ClaimerIsARule(fold, points, rules, i);
    MatchingFinds(fold, points, Claimer(fold, points, rules, i).value, i);
    assert Matching(fold, points, Claimer(fold, points, rules, i).value)[0] == i;
  }

  lemma GainedRolesDiffer(fold: Fold, points: seq<Point>, rules: seq<Rule>, i: nat, j: nat)
    requires UniqueRules(rules) && i < |points| && j < |points| && i != j && points[j].enabled
    requires Applied(fold, points, rules)[i].role != points[i].role
    ensures Applied(fold, points, rules)[i].role != Applied(fold, points, rules)[j].role
  {
    GainedRole(fold, points, rules, i);
    if Applied(fold, points, rules)[j].role != points[j].role {
      GainedRole(fold, points, rules, j);
    }
  }

  lemma RolesStayUniqueAmongEnabled(fold: Fold, points: seq<Point>, rules: seq<Rule>)
    requires UniqueRules(rules) && UniqueEnabled(points)
    ensures UniqueEnabled(Applied(fold, points, rules))
  {
    var after := Applied(fold, points, rules);
    forall i, j | 0 <= i < j < |after| && after[i].enabled && after[j].enabled && after[i].role.Some?
      ensures after[i].role != after[j].role
    {
      BindingsAreNeverOverwritten(fold, points, rules, i);
      BindingsAreNeverOverwritten(fold, points, rules, j);
      if after[i].role != points[i].role {
        GainedRolesDiffer(fold, points, rules, i, j);
      } else if after[j].role != points[j].role {
        GainedRolesDiffer(fold, points, rules, j, i);
      }
    }
  }

  // ---- When the commit succeeds ----

  /** A rule binds a point exactly if it is the claimer from which the point gains its role. */
  lemma BoundGains(fold: Fold, points: seq<Point>, rules: seq<Rule>, k: nat)
    requires UniqueRules(rules) && k < |rules|
    ensures var m := Matching(fold, points, rules[k]);
      OutcomeOf(fold, points, rules, k) == Bound <==>
        |m| == 1 && Claimer(fold, points, rules, m[0]) == Some(rules[k]) && Applied(fold, points, rules)[m[0]].role != points[m[0]].role
  {
    var m := Matching(fold, points, rules[k]);
    if |m| == 1 {
      assert m == [m[0]];
      ClaimerOfPrefix(fold, points, rules, k + 1, m[0]);
      ClaimerNext(fold, points, rules, k, m[0]);
      ClaimerIsARule(fold, points, rules[..k], m[0]);
      if Claimer(fold, points, rules[..k], m[0]).Some? {
        ClaimerOfPrefix(fold, points, rules, k, m[0]);
        assert forall r | r in rules[..k] :: r.role != rules[k].role;
      }
    }
  }

  lemma {:induction false} ClaimerOfPrefix(fold: Fold, points: seq<Point>, rules: seq<Rule>, k: nat, i: nat)
    requires k <= |rules| && Claimer(fold, points, rules[..k], i).Some?
    ensures Claimer(fold, points, rules, i) == Claimer(fold, points, rules[..k], i)
    decreases |rules|
  {
    if k < |rules| {
      assert rules[..|rules| - 1][..k] == rules[..k];
      ClaimerOfPrefix(fold, points, rules[..|rules| - 1], k, i);
    } else {
      assert rules[..k] == rules;
    }
  }

  /** The rule at `k` binds its role, which the disabled point at `j` holds. */
  ghost predicate HoldsABoundRole(fold: Fold, points: seq<Point>, rules: seq<Rule>, k: nat, j: nat)
    requires k < |rules| && j < |points|
  {
    OutcomeOf(fold, points, rules, k) == Bound && !points[j].enabled && points[j].role == Some(rules[k].role)
  }

  lemma AHolderBlocks(fold: Fold, points: seq<Point>, rules: seq<Rule>, k: nat, j: nat)
    requires UniqueRules(rules) && k < |rules| && j < |points| && HoldsABoundRole(fold, points, rules, k, j)
    ensures !UniqueIndex(Applied(fold, points, rules))
  {
    BoundGains(fold, points, rules, k);
    BindingsAreNeverOverwritten(fold, points, rules, j);
    var i, after := Matching(fold, points, rules[k])[0], Applied(fold, points, rules);
    GainedRole(fold, points, rules, i);
    assert after[i].role == after[j].role && i != j;
  }

  lemma AClashIsAHolder(fold: Fold, points: seq<Point>, rules: seq<Rule>, i: nat, j: nat) returns (k: nat)
    requires UniqueRules(rules) && i < |points| && j < |points| && i != j
    requires var after := Applied(fold, points, rules); after[i].role == after[j].role && after[i].role != points[i].role
    ensures k < |rules| && HoldsABoundRole(fold, points, rules, k, j)
  {
    if points[j].enabled {
      GainedRolesDiffer(fold, points, rules, i, j);
      assert false;
    }
    GainedRole(fold, points, rules, i);
    k :| 0 <= k < |rules| && rules[k] == Claimer(fold, points, rules, i).value;
    BoundGains(fold, points, rules, k);
    BindingsAreNeverOverwritten(fold, points, rules, j);
  }

  /** The commit succeeds exactly if no role that the run binds is held by a disabled point, which
      the run itself never looks at. */
  lemma CommitsUnlessADisabledPointHoldsTheRole(fold: Fold, points: seq<Point>, rules: seq<Rule>)
    requires UniqueRules(rules) && UniqueIndex(points)
    ensures UniqueIndex(Applied(fold, points, rules)) <==>
      forall k, j | 0 <= k < |rules| && 0 <= j < |points| :: !HoldsABoundRole(fold, points, rules, k, j)
  {
    var after := Applied(fold, points, rules);
    if k: nat, j: nat :| k < |rules| && j < |points| && HoldsABoundRole(fold, points, rules, k, j) {
      AHolderBlocks(fold, points, rules, k, j);
    }
    if i: nat, j: nat :| i < j < |after| && after[i].role.Some? && after[i].role == after[j].role {
      if after[i].role != points[i].role {
        var k := AClashIsAHolder(fold, points, rules, i, j);
      } else {
        var k := AClashIsAHolder(fold, points, rules, j, i);
      }
    }
  }

  lemma ADisabledHolderBlocksTheCommit(fold: Fold, free: Point, holder: Point, rule: Rule)
    requires free == Point(Some("a"), "ai", true, None, None) && holder == Point(Some("b"), "ai", false, Some("temp"), None)
    requires rule == Rule("temp", None, "a", None, true)
    ensures UniqueIndex([free, holder]) && !UniqueIndex(Applied(fold, [free, holder], [rule]))
  {
    var points, rules := [free, holder], [rule];
    assert points[..1] == [free] && [free][..0] == [] && rules[..0] == [];
    assert Matching(fold, [free], rule) == [0];
    assert Matching(fold, points, rule) == [0];
    assert Claimer(fold, points, rules, 0) == Some(rule);
    assert !RoleUsed(points, "temp");
    assert Applied(fold, points, rules)[0].role == Some("temp");
    BindingsAreNeverOverwritten(fold, points, rules, 1);
  }

  // ---- The tallies ----

  lemma {:induction false} EveryRuleIsTallied(rules: seq<Rule>, outcomes: seq<Outcome>)
    requires |rules| == |outcomes|
    ensures var t := TallyOf(rules, outcomes);
      t.matched + t.unmatchedOptional + t.missingRequired + |t.conflicts| + t.retained == |rules|
  {
    if rules != [] {
      EveryRuleIsTallied(rules[..|rules| - 1], outcomes[..|rules| - 1]);
    }
  }

  predicate Gains(fold: Fold, points: seq<Point>, rules: seq<Rule>, i: nat)
    requires i < |points|
  {
    AppliedPoint(fold, points, rules, i).role != points[i].role
  }

  function Gainers(fold: Fold, points: seq<Point>, rules: seq<Rule>): set<nat> {
    set i: nat | i < |points| && Gains(fold, points, rules, i)
  }

  lemma NextGainer(fold: Fold, points: seq<Point>, rules: seq<Rule>, k: nat, i: nat)
    requires k < |rules| && i < |points|
    ensures Gains(fold, points, rules[..k + 1], i) <==>
      Gains(fold, points, rules[..k], i) || (OutcomeOf(fold, points, rules, k) == Bound && Matching(fold, points, rules[k]) == [i])
    ensures OutcomeOf(fold, points, rules, k) == Bound && Matching(fold, points, rules[k]) == [i] ==> !Gains(fold, points, rules[..k], i)
  {
    ClaimerNext(fold, points, rules, k, i);
  }

  function CountBound(outcomes: seq<Outcome>): nat {
    if outcomes == [] then 0
    else CountBound(outcomes[..|outcomes| - 1]) + if outcomes[|outcomes| - 1] == Bound then 1 else 0
  }

  lemma {:induction false} MatchedIsCountBound(rules: seq<Rule>, outcomes: seq<Outcome>)
    requires |rules| == |outcomes|
    ensures TallyOf(rules, outcomes).matched == CountBound(outcomes)
  {
    if rules != [] {
      MatchedIsCountBound(rules[..|rules| - 1], outcomes[..|rules| - 1]);
    }
  }

  lemma {:induction false} CountedUp(counts: seq<nat>, outcomes: seq<Outcome>)
    requires |counts| == |outcomes| + 1 && counts[0] == 0
    requires forall k | 0 <= k < |outcomes| :: counts[k + 1] == counts[k] + if outcomes[k] == Bound then 1 else 0
    ensures counts[|outcomes|] == CountBound(outcomes)
  {
    if outcomes != [] {
      CountedUp(counts[..|outcomes|], outcomes[..|outcomes| - 1]);
    }
  }

  lemma NoRulesNoGainers(fold: Fold, points: seq<Point>)
    ensures Gainers(fold, points, []) == {}
  {
  }

  lemma NextGainers(fold: Fold, points: seq<Point>, rules: seq<Rule>, k: nat)
    requires k < |rules|
    ensures |Gainers(fold, points, rules[..k + 1])| ==
      |Gainers(fold, points, rules[..k])| + if OutcomeOf(fold, points, rules, k) == Bound then 1 else 0
  {
    var m, earlier := Matching(fold, points, rules[k]), Gainers(fold, points, rules[..k]);
    forall i: nat | i < |points| {
      NextGainer(fold, points, rules, k, i);
    }
    if OutcomeOf(fold, points, rules, k) == Bound {
      assert m == [m[0]] && m[0] !in earlier;
      assert Gainers(fold, points, rules[..k + 1]) == earlier + {m[0]};
    } else {
      assert Gainers(fold, points, rules[..k + 1]) == earlier;
    }
  }

  function GainerCounts(fold: Fold, points: seq<Point>, rules: seq<Rule>): (counts: seq<nat>)
    ensures |counts| == |rules| + 1
    ensures forall k | 0 <= k <= |rules| :: counts[k] == |Gainers(fold, points, rules[..k])|
  {
    seq(|rules| + 1, k requires 0 <= k <= |rules| => |Gainers(fold, points, rules[..k])|)
  }

  /** `matched` counts the points that gain a role. */
  lemma MatchedCountsTheGainers(fold: Fold, points: seq<Point>, rules: seq<Rule>)
    ensures TallyOf(rules, Outcomes(fold, points, rules)).matched == |Gainers(fold, points, rules)|
  {
    var outcomes, counts := Outcomes(fold, points, rules), GainerCounts(fold, points, rules);
    assert rules[..0] == [] && rules[..|rules|] == rules;
    NoRulesNoGainers(fold, points);
    forall k | 0 <= k < |rules|
      ensures counts[k + 1] == counts[k] + if outcomes[k] == Bound then 1 else 0
    {
      NextGainers(fold, points, rules, k);
    }
    MatchedIsCountBound(rules, outcomes);
    CountedUp(counts, outcomes);
  }

  // ---- The same template again ----

  lemma {:induction false} SameClaimers(fold: Fold, points: seq<Point>, after: seq<Point>, rules: seq<Rule>, i: nat)
    requires forall r | r in rules :: Matching(fold, after, r) == Matching(fold, points, r)
    ensures Claimer(fold, after, rules, i) == Claimer(fold, points, rules, i)
  {
    if rules != [] {
      SameClaimers(fold, points, after, rules[..|rules| - 1], i);
    }
  }

  lemma RolesInUseStay(fold: Fold, points: seq<Point>, rules: seq<Rule>, role: string)
    ensures RoleUsed(points, role) ==> RoleUsed(Applied(fold, points, rules), role)
  {
    if RoleUsed(points, role) {
      var i :| 0 <= i < |points| && points[i].enabled && points[i].role == Some(role);
      BindingsAreNeverOverwritten(fold, points, rules, i);
      assert Applied(fold, points, rules)[i].role == Some(role);
    }
  }

  /** Applying the same rules again changes nothing; what was bound is now retained, and every other
      rule has the outcome it had. */
  lemma SecondRunChangesNothing(fold: Fold, points: seq<Point>, rules: seq<Rule>)
    requires UniqueRules(rules)
    ensures var after := Applied(fold, points, rules);
      && Applied(fold, after, rules) == after
      && forall k | 0 <= k < |rules| ::
           OutcomeOf(fold, after, rules, k) == if OutcomeOf(fold, points, rules, k) == Bound then Retained else OutcomeOf(fold, points, rules, k)
  {
    var after := Applied(fold, points, rules);
    assert rules[..|rules|] == rules;
    forall r
      ensures Matching(fold, after, r) == Matching(fold, points, r)
    {
      SameMatches(fold, points, after, rules, |rules|, r);
    }
    forall i | 0 <= i < |points|
      ensures AppliedPoint(fold, after, rules, i) == after[i]
    {
      SameClaimers(fold, points, after, rules, i);
      if Claimer(fold, points, rules, i).Some? {
        RolesInUseStay(fold, points, rules, Claimer(fold, points, rules, i).value.role);
      }
    }
    forall k | 0 <= k < |rules|
      ensures OutcomeOf(fold, after, rules, k) == if OutcomeOf(fold, points, rules, k) == Bound then Retained else OutcomeOf(fold, points, rules, k)
    {
      SameOutcome(fold, points, after, rules, k);
    }
  }

  lemma SameOutcome(fold: Fold, points: seq<Point>, after: seq<Point>, rules: seq<Rule>, k: nat)
    requires UniqueRules(rules) && k < |rules| && after == Applied(fold, points, rules)
    requires forall r :: Matching(fold, after, r) == Matching(fold, points, r)
    ensures OutcomeOf(fold, after, rules, k) == if OutcomeOf(fold, points, rules, k) == Bound then Retained else OutcomeOf(fold, points, rules, k)
  {
    var m := Matching(fold, points, rules[k]);
    if |m| == 1 {
      SameClaimers(fold, points, after, rules[..k], m[0]);
      RolesInUseStay(fold, points, rules, rules[k].role);
      BindingsAreNeverOverwritten(fold, points, rules, m[0]);
      BoundGains(fold, points, rules, k);
      if OutcomeOf(fold, points, rules, k) == Bound {
        GainedRole(fold, points, rules, m[0]);
      }
    }
  }

  // ---- A template made from a device ----

  datatype Extraction = NoBindings | MissingName | Template(rules: seq<Rule>)

  function OrDefault(given: Option<string>, default: string): string {
    if given.Some? && given.value != "" then given.value else default
  }

  function RuleOf(p: Point, defaultLabel: Fold): Rule
    requires p.role.Some? && p.name.Some?
  {
    Rule(p.role.value, Some(OrDefault(p.displayLabel, defaultLabel(p.role.value))), p.name.value, Some(p.objectType), false)
  }

  predicate Named(p: Point) {
    p.name.Some? && p.name.value != ""
  }

  function BoundPoints(points: seq<Point>): (b: seq<Point>)
    ensures forall p | p in b :: p in points && p.role.Some?
    ensures forall p | p in points && p.role.Some? :: p in b
  {
    if points == [] then []
    else
      var last := |points| - 1;
      BoundPoints(points[..last]) + if points[last].role.Some? then [points[last]] else []
  }

  function RulesOf(bound: seq<Point>, defaultLabel: Fold): (rules: seq<Rule>)
    requires forall p | p in bound :: p.role.Some? && p.name.Some?
    ensures |rules| == |bound|
    ensures forall i | 0 <= i < |rules| :: rules[i] == RuleOf(bound[i], defaultLabel)
  {
    if bound == [] then []
    else
      var last := |bound| - 1;
      RulesOf(bound[..last], defaultLabel) + [RuleOf(bound[last], defaultLabel)]
  }

  /** Disabled points with a binding become rules as well. */
  function Extract(points: seq<Point>, defaultLabel: Fold): Extraction {
    var bound := BoundPoints(points);
    if bound == [] then NoBindings
    else if exists p | p in bound :: !Named(p) then MissingName
    else Template(RulesOf(bound, defaultLabel))
  }

  /** The rule that a bound point becomes: optional, with the point's own name and type, and with the
      default label of the role if the point has none. */
  ghost predicate IsRuleFor(r: Rule, p: Point, defaultLabel: Fold) {
    && p.role == Some(r.role) && p.name == Some(r.matchValue) && r.matchValue != ""
    && r.objectType == Some(p.objectType) && !r.required
    && r.displayLabel == if p.displayLabel == None || p.displayLabel == Some("") then Some(defaultLabel(r.role)) else p.displayLabel
  }

  ghost predicate AreBoundPlaces(points: seq<Point>, places: seq<nat>) {
    && (forall a, b | 0 <= a < b < |places| :: places[a] < places[b])
    && (forall a | 0 <= a < |places| :: places[a] < |points| && points[places[a]].role.Some?)
    && (forall i | 0 <= i < |points| && points[i].role.Some? :: i in places)
  }

  lemma BoundPlacesNext(points: seq<Point>, earlier: seq<nat>)
    requires points != [] && AreBoundPlaces(points[..|points| - 1], earlier)
    ensures AreBoundPlaces(points, if points[|points| - 1].role.Some? then earlier + [|points| - 1] else earlier)
  {
    var last := |points| - 1;
    var places := if points[last].role.Some? then earlier + [last] else earlier;
    forall i | 0 <= i < |points| && points[i].role.Some?
      ensures i in places
    {
      if i < last {
        assert points[..last][i] == points[i];
        assert i in earlier;
      }
    }
  }

  ghost predicate StandAt(bound: seq<Point>, points: seq<Point>, places: seq<nat>) {
    |bound| == |places| && forall k | 0 <= k < |bound| :: places[k] < |points| && bound[k] == points[places[k]]
  }

  lemma StandAtNext(bound: seq<Point>, points: seq<Point>, places: seq<nat>)
    requires points != [] && StandAt(bound, points[..|points| - 1], places)
    ensures StandAt(bound, points, places) && StandAt(bound + [points[|points| - 1]], points, places + [|points| - 1])
  {
    var more, all := bound + [points[|points| - 1]], places + [|points| - 1];
    forall k | 0 <= k < |more|
      ensures all[k] < |points| && more[k] == points[all[k]]
    {
      if k < |bound| {
        assert more[k] == bound[k] && all[k] == places[k];
      }
    }
  }

  lemma {:induction false} BoundPointsAt(points: seq<Point>) returns (places: seq<nat>)
    ensures AreBoundPlaces(points, places) && StandAt(BoundPoints(points), points, places)
  {
    if points == [] {
      places := [];
    } else {
      var last := |points| - 1;
      places := BoundPointsAt(points[..last]);
      BoundPlacesNext(points, places);
      StandAtNext(BoundPoints(points[..last]), points, places);
      if points[last].role.Some? {
        places := places + [last];
      } else {
        assert BoundPoints(points) == BoundPoints(points[..last]);
      }
    }
  }

  /** A template has one rule for each bound point, in their order; there is none exactly if no point is
      bound, or a bound one has no name. */
  lemma ExtractTells(points: seq<Point>, defaultLabel: Fold) returns (places: seq<nat>)
    ensures AreBoundPlaces(points, places)
    ensures match Extract(points, defaultLabel)
            case NoBindings => places == []
            case MissingName => exists k :: 0 <= k < |places| && (points[places[k]].name == None || points[places[k]].name == Some(""))
            case Template(rules) => 0 < |rules| == |places| && forall k | 0 <= k < |rules| :: IsRuleFor(rules[k], points[places[k]], defaultLabel)
  {
    places := BoundPointsAt(points);
    var bound := BoundPoints(points);
    if Extract(points, defaultLabel).MissingName? {
      var p :| p in bound && !Named(p);
      var k :| 0 <= k < |bound| && bound[k] == p;
      assert points[places[k]].name == None || points[places[k]].name == Some("");
    } else if Extract(points, defaultLabel).Template? {
      RulesTell(bound, defaultLabel);
    }
  }

  lemma RulesTell(bound: seq<Point>, defaultLabel: Fold)
    requires forall p | p in bound :: p.role.Some? && p.name.Some? && p.name.value != ""
    ensures forall k | 0 <= k < |bound| :: IsRuleFor(RulesOf(bound, defaultLabel)[k], bound[k], defaultLabel)
  {
    forall k | 0 <= k < |bound|
      ensures IsRuleFor(RulesOf(bound, defaultLabel)[k], bound[k], defaultLabel)
    {
      assert bound[k] in bound;
    }
  }

  /** The same points, enabled and without bindings. */
  ghost predicate IsUnboundCopy(points: seq<Point>, copy: seq<Point>) {
    && |copy| == |points|
    && forall i | 0 <= i < |points| ::
         copy[i].name == points[i].name && copy[i].objectType == points[i].objectType && copy[i].enabled && copy[i].role.None?
  }

  /** Another point that the rule made from the point at `i` cannot tell apart. */
  predicate HasTwin(fold: Fold, copy: seq<Point>, i: nat, r: Rule) {
    exists j | 0 <= j < |copy| :: j != i && Matches(fold, copy[j], r)
  }

  lemma OtherElement(m: seq<nat>, i: nat) returns (a: nat)
    requires i in m && m != [i] && forall a, b | 0 <= a < b < |m| :: m[a] < m[b]
    ensures a < |m| && m[a] != i
  {
    if m[0] != i {
      a := 0;
    } else {
      assert m == [m[0]] + m[1..];
      a := 1;
      assert m[0] < m[1];
    }
  }

  lemma MatchesOnlyItself(fold: Fold, copy: seq<Point>, i: nat, r: Rule)
    requires i < |copy| && Matches(fold, copy[i], r)
    ensures Matching(fold, copy, r) == [i] <==> !HasTwin(fold, copy, i, r)
  {
    var m := Matching(fold, copy, r);
    MatchingFinds(fold, copy, r, i);
    if m != [i] {
      MatchingHasNoDuplicates(fold, copy, r);
      var a := OtherElement(m, i);
      MatchingFinds(fold, copy, r, m[a]);
      assert Matches(fold, copy[m[a]], r);
    }
    if HasTwin(fold, copy, i, r) {
      var j: nat :| j < |copy| && j != i && Matches(fold, copy[j], r);
      MatchingFinds(fold, copy, r, j);
    }
  }

  lemma ExtractedRules(points: seq<Point>, defaultLabel: Fold, r: Rule)
    requires Extract(points, defaultLabel).Template?
    ensures forall p | p in points && p.role.Some? :: Named(p)
    ensures r in Extract(points, defaultLabel).rules <==> exists i :: 0 <= i < |points| && points[i].role.Some? && Named(points[i]) && r == RuleOf(points[i], defaultLabel)
  {
    var bound := BoundPoints(points);
    var rules := RulesOf(bound, defaultLabel);
    if r in rules {
      var k :| 0 <= k < |rules| && rules[k] == r;
      assert bound[k] in bound && bound[k] in points;
      var i :| 0 <= i < |points| && points[i] == bound[k];
      assert points[i].role.Some? && Named(points[i]) && r == RuleOf(points[i], defaultLabel);
    }
    forall i | 0 <= i < |points| && points[i].role.Some? && Named(points[i]) && r == RuleOf(points[i], defaultLabel)
      ensures r in rules
    {
      assert points[i] in bound;
      var k :| 0 <= k < |bound| && bound[k] == points[i];
      assert rules[k] == r;
    }
  }

  /** A template made from a device, its rules in any order, applied to an unbound copy of the device
      restores the role of a point exactly if no other point looks the same to the point's rule, and
      binds nothing else. */
  lemma ExtractThenApplyRestores(fold: Fold, defaultLabel: Fold, points: seq<Point>, copy: seq<Point>, rules: seq<Rule>, i: nat)
    requires UniqueIndex(points) && Extract(points, defaultLabel).Template? && IsUnboundCopy(points, copy)
    requires UniqueRules(rules) && forall r :: r in rules <==> r in Extract(points, defaultLabel).rules
    requires i < |points|
    ensures var p, after := points[i], Applied(fold, copy, rules)[i];
      && (p.role.Some? ==> p.name.Some?)
      && (if p.role.Some? && !HasTwin(fold, copy, i, RuleOf(p, defaultLabel))
          then after.role == p.role && after.displayLabel == RuleOf(p, defaultLabel).displayLabel
          else after == copy[i])
  {
    var claimer := Claimer(fold, copy, rules, i);
    ClaimerIsARule(fold, copy, rules, i);
    if claimer.Some? {
      var r := claimer.value;
      ExtractedRules(points, defaultLabel, r);
      var j :| 0 <= j < |points| && points[j].role.Some? && Named(points[j]) && r == RuleOf(points[j], defaultLabel);
      MatchingFinds(fold, copy, r, j);
      assert j == i;
    }
    if points[i].role.Some? {
      ExtractedRules(points, defaultLabel, Rule("", None, "", None, false));
      assert points[i] in points;
      var r := RuleOf(points[i], defaultLabel);
      ExtractedRules(points, defaultLabel, r);
      assert r in rules;
      MatchesOnlyItself(fold, copy, i, r);
    }
  }
}
