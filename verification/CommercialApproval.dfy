/** What the importer approves: exactly which rows, and when the order matters. */
module CommercialApproval {
  import opened Base
  import opened Identity
  import opened Commercial

  // ---- the comparable a title's first row fixes ------------------------------------------

  /** The first kept row of a title. */
  function FirstRow(h: Hash, cs: seq<CompanyRow>, raws: seq<TitleRow>, id: string): Option<TitleRow> {
    if raws == [] then None
    else
      var n := |raws| - 1;
      var earlier := FirstRow(h, cs, raws[..n], id);
      if earlier.Some? then earlier
      else if Kept(cs, raws[n]) && IdentityOf(h, raws[n]) == id then Some(raws[n]) else None
  }

  predicate FirstSourced(h: Hash, cs: seq<CompanyRow>, raws: seq<TitleRow>, id: string) {
    var first := FirstRow(h, cs, raws, id);
    first.Some? && Sourced(first.value)
  }

  function KeptRows(cs: seq<CompanyRow>, raws: seq<TitleRow>): seq<TitleRow> {
    if raws == [] then []
    else
      var n := |raws| - 1;
      KeptRows(cs, raws[..n]) + if Kept(cs, raws[n]) then [raws[n]] else []
  }

  /** A relationship is approved when it is sourced and both its ends are approved. */
  predicate BothApproved(h: Hash, cs: seq<CompanyRow>, approved: set<string>, raws: seq<TitleRow>, raw: TitleRow) {
    Sourced(raw) && Target(cs, raw) in approved && FirstSourced(h, cs, raws, IdentityOf(h, raw))
  }

  lemma {:induction false} FirstRowIs(h: Hash, cs: seq<CompanyRow>, raws: seq<TitleRow>, id: string)
    ensures FirstRow(h, cs, raws, id).Some? <==> exists x :: x in raws && Kept(cs, x) && IdentityOf(h, x) == id
    ensures FirstRow(h, cs, raws, id).Some? ==>
            var x := FirstRow(h, cs, raws, id).value; x in raws && Kept(cs, x) && IdentityOf(h, x) == id
  {
    hide Kept, IdentityOf;
    if raws != [] {
      var n := |raws| - 1;
      assert raws == raws[..n] + [raws[n]];
      FirstRowIs(h, cs, raws[..n], id);
    }
  }

  lemma {:induction false} KeptRowsAre(cs: seq<CompanyRow>, raws: seq<TitleRow>)
    ensures forall x :: x in KeptRows(cs, raws) <==> x in raws && Kept(cs, x)
  {
    hide Kept;
    if raws != [] {
      var n := |raws| - 1;
      assert raws == raws[..n] + [raws[n]];
      KeptRowsAre(cs, raws[..n]);
    }
  }

  /** One pass over the rows agrees with two: the comparables are the first rows
      of their titles, and the relationships are the kept rows in order, each
      judged against the finished comparables. */
  ghost predicate TwoPass(h: Hash, cs: seq<CompanyRow>, approved: set<string>, titles: Ledger, raws: seq<TitleRow>, t: Titles) {
    && Distinct(t.order)
    && (forall id :: id in t.order <==> id in t.comparables)
    && (forall id :: id in t.comparables <==> FirstRow(h, cs, raws, id).Some?)
    && (forall id :: id in t.comparables ==> t.comparables[id] == ComparableFor(h, cs, titles, FirstRow(h, cs, raws, id).value))
    && |t.relationships| == |KeptRows(cs, raws)|
    && (forall k :: 0 <= k < |t.relationships| ==>
          t.relationships[k] == RelationshipFor(h, cs, KeptRows(cs, raws)[k], BothApproved(h, cs, approved, raws, KeptRows(cs, raws)[k])))
  }

  lemma {:induction false} TwoPassStep(h: Hash, cs: seq<CompanyRow>, approved: set<string>, titles: Ledger, raws: seq<TitleRow>, t: Titles)
    requires raws != [] && TwoPass(h, cs, approved, titles, raws[..|raws| - 1], t)
    ensures TwoPass(h, cs, approved, titles, raws, TitleStep(h, cs, approved, titles, t, raws[|raws| - 1]))
  {
    hide Kept, IdentityOf, Sourced, Target, ComparableFor, RelationshipFor, Distinct;
    var n := |raws| - 1;
    var front, raw := raws[..n], raws[n];
    var id := IdentityOf(h, raw);
    var u := TitleStep(h, cs, approved, titles, t, raw);
    if Kept(cs, raw) {
      if id !in t.comparables { DistinctSnoc(t.order, id); }
      assert u.comparables[id].state == Approved <==> FirstSourced(h, cs, raws, id) by { StateOfComparable(h, cs, titles, FirstRow(h, cs, raws, id).value); }
    }
    var kept := KeptRows(cs, raws);
    KeptRowsAre(cs, front);
    forall k | 0 <= k < |u.relationships|
      ensures u.relationships[k] == RelationshipFor(h, cs, kept[k], BothApproved(h, cs, approved, raws, kept[k]))
    {
      if k < |t.relationships| {
        assert kept[k] == KeptRows(cs, front)[k] && kept[k] in KeptRows(cs, front);
        FirstRowIs(h, cs, front, IdentityOf(h, kept[k]));
      }
    }
  }

  lemma {:induction false} StateOfComparable(h: Hash, cs: seq<CompanyRow>, titles: Ledger, raw: TitleRow)
    ensures ComparableFor(h, cs, titles, raw).id == IdentityOf(h, raw)
    ensures ComparableFor(h, cs, titles, raw).state == if Sourced(raw) then Approved else Pending
  {
  }

  lemma {:induction false} TwoPasses(h: Hash, cs: seq<CompanyRow>, approved: set<string>, titles: Ledger, raws: seq<TitleRow>)
    ensures TwoPass(h, cs, approved, titles, raws, TitlesFrom(h, cs, approved, titles, raws))
  {
    hide TwoPass, TitleStep, Kept;
    if raws != [] {
      TwoPasses(h, cs, approved, titles, raws[..|raws| - 1]);
      TwoPassStep(h, cs, approved, titles, raws, TitlesFrom(h, cs, approved, titles, raws[..|raws| - 1]));
    } else {
      NoTitles(h, cs, approved, titles);
    }
  }

  lemma {:induction false} NoTitles(h: Hash, cs: seq<CompanyRow>, approved: set<string>, titles: Ledger)
    ensures TwoPass(h, cs, approved, titles, [], Titles([], map[], []))
  {
  }

  // ---- which ids are approved --------------------------------------------------------------

  function ApprovedComparables(t: Titles): set<string> { set id | id in t.comparables && t.comparables[id].state == Approved }

  function ApprovedRelationships(t: Titles): set<string> { set r | r in t.relationships && r.state == Approved :: r.id }

  /** A comparable is approved exactly when the first row of its title is sourced. */
  lemma {:induction false} ComparableApproved(h: Hash, cs: seq<CompanyRow>, approved: set<string>, titles: Ledger, raws: seq<TitleRow>, id: string)
    ensures id in ApprovedComparables(TitlesFrom(h, cs, approved, titles, raws)) <==> FirstSourced(h, cs, raws, id)
  {
    hide TitlesFrom, ComparableFor, Sourced, FirstRow;
    TwoPasses(h, cs, approved, titles, raws);
    if FirstRow(h, cs, raws, id).Some? { StateOfComparable(h, cs, titles, FirstRow(h, cs, raws, id).value); }
  }

  /** A relationship id is approved exactly when a kept row of that id is sourced,
      its company is approved, and the first row of its title is sourced. */
  ghost predicate RowApproves(h: Hash, cs: seq<CompanyRow>, approved: set<string>, raws: seq<TitleRow>, id: string, x: TitleRow) {
    && x in raws && Kept(cs, x) && BothApproved(h, cs, approved, raws, x)
    && id == RelationshipId(h, IdentityOf(h, x), COMPANY, Target(cs, x), x.relationshipType)
  }

  lemma {:induction false} RelationshipApproved(h: Hash, cs: seq<CompanyRow>, approved: set<string>, titles: Ledger, raws: seq<TitleRow>, id: string)
    ensures id in ApprovedRelationships(TitlesFrom(h, cs, approved, titles, raws)) <==>
            exists x :: RowApproves(h, cs, approved, raws, id, x)
  {
    hide TitlesFrom, IdentityOf, Target, Kept, BothApproved, RelationshipId, FirstRow, KeptRows, ComparableFor;
    TwoPasses(h, cs, approved, titles, raws);
    KeptRowsAre(cs, raws);
    var t, kept := TitlesFrom(h, cs, approved, titles, raws), KeptRows(cs, raws);
    if id in ApprovedRelationships(t) {
      var k :| 0 <= k < |t.relationships| && t.relationships[k].id == id && t.relationships[k].state == Approved;
      assert kept[k] in kept && RowApproves(h, cs, approved, raws, id, kept[k]);
    }
    if x :| RowApproves(h, cs, approved, raws, id, x) {
      var k :| 0 <= k < |kept| && kept[k] == x;
      assert t.relationships[k] in t.relationships && t.relationships[k].state == Approved;
    }
  }

  // ---- the order of the relationship rows -----------------------------------------------------

  /** Every title's rows are all sourced or all unsourced. */
  ghost predicate Uniform(h: Hash, cs: seq<CompanyRow>, raws: seq<TitleRow>) {
    forall x, y :: x in raws && y in raws && Kept(cs, x) && Kept(cs, y) && IdentityOf(h, x) == IdentityOf(h, y) ==> Sourced(x) == Sourced(y)
  }

  ghost predicate SameApprovals(h: Hash, cs: seq<CompanyRow>, approved: set<string>, titles: Ledger, raws: seq<TitleRow>, other: seq<TitleRow>) {
    var t, u := TitlesFrom(h, cs, approved, titles, raws), TitlesFrom(h, cs, approved, titles, other);
    ApprovedComparables(t) == ApprovedComparables(u) && ApprovedRelationships(t) == ApprovedRelationships(u)
  }

  lemma {:induction false} SameMembers(raws: seq<TitleRow>, other: seq<TitleRow>)
    requires multiset(raws) == multiset(other)
    ensures forall x :: x in raws <==> x in other
  {
    assert forall x :: x in raws <==> x in multiset(raws);
    assert forall x :: x in other <==> x in multiset(other);
  }

  lemma {:induction false} FirstSourcedUniform(h: Hash, cs: seq<CompanyRow>, raws: seq<TitleRow>, other: seq<TitleRow>, id: string)
    requires Uniform(h, cs, raws) && forall x :: x in raws <==> x in other
    ensures FirstSourced(h, cs, raws, id) <==> FirstSourced(h, cs, other, id)
  {
    hide FirstRow, Kept, IdentityOf, Sourced;
    FirstRowIs(h, cs, raws, id);
    FirstRowIs(h, cs, other, id);
  }

  lemma {:induction false} UniformIsOrderFree(h: Hash, cs: seq<CompanyRow>, approved: set<string>, titles: Ledger, raws: seq<TitleRow>, other: seq<TitleRow>)
    requires Uniform(h, cs, raws) && multiset(raws) == multiset(other)
    ensures SameApprovals(h, cs, approved, titles, raws, other)
  {
    hide TitlesFrom, FirstSourced, Uniform, Kept, IdentityOf, Target, Sourced, RelationshipId, ApprovedComparables, ApprovedRelationships;
    SameMembers(raws, other);
    var t, u := TitlesFrom(h, cs, approved, titles, raws), TitlesFrom(h, cs, approved, titles, other);
    forall id ensures id in ApprovedComparables(t) <==> id in ApprovedComparables(u) {
      ComparableApproved(h, cs, approved, titles, raws, id);
      ComparableApproved(h, cs, approved, titles, other, id);
      FirstSourcedUniform(h, cs, raws, other, id);
    }
    forall id ensures id in ApprovedRelationships(t) <==> id in ApprovedRelationships(u) {
      RelationshipApproved(h, cs, approved, titles, raws, id);
      RelationshipApproved(h, cs, approved, titles, other, id);
      forall x ensures RowApproves(h, cs, approved, raws, id, x) <==> RowApproves(h, cs, approved, other, id, x) {
        FirstSourcedUniform(h, cs, raws, other, IdentityOf(h, x));
      }
    }
  }

  /** `x` moved to the front. */
  function Fronted(raws: seq<TitleRow>, k: nat): (r: seq<TitleRow>)
    requires k < |raws|
    ensures multiset(r) == multiset(raws) && r[0] == raws[k]
  {
    assert raws == raws[..k] + [raws[k]] + raws[k + 1..];
    [raws[k]] + raws[..k] + raws[k + 1..]
  }

  lemma {:induction false} FirstOfFront(h: Hash, cs: seq<CompanyRow>, raws: seq<TitleRow>, id: string)
    requires raws != [] && Kept(cs, raws[0]) && IdentityOf(h, raws[0]) == id
    ensures FirstRow(h, cs, raws, id) == Some(raws[0])
  {
    hide Kept, IdentityOf;
    if |raws| > 1 { FirstOfFront(h, cs, raws[..|raws| - 1], id); }
  }

  /** The approvals do not depend on the order of the rows exactly when no title
      has both a sourced and an unsourced row. */
  lemma {:induction false} OrderFreeIffUniform(h: Hash, cs: seq<CompanyRow>, approved: set<string>, titles: Ledger, raws: seq<TitleRow>)
    ensures (forall other | multiset(other) == multiset(raws) :: SameApprovals(h, cs, approved, titles, raws, other)) <==> Uniform(h, cs, raws)
  {
    hide SameApprovals, FirstRow, Kept, IdentityOf, Sourced;
    if Uniform(h, cs, raws) {
      forall other | multiset(other) == multiset(raws) ensures SameApprovals(h, cs, approved, titles, raws, other) {
        UniformIsOrderFree(h, cs, approved, titles, raws, other);
      }
    } else {
      var x, y :| x in raws && y in raws && Kept(cs, x) && Kept(cs, y) && IdentityOf(h, x) == IdentityOf(h, y) && Sourced(x) != Sourced(y);
      var i :| 0 <= i < |raws| && raws[i] == x;
      var j :| 0 <= j < |raws| && raws[j] == y;
      SplitApprovals(h, cs, approved, titles, raws, i, j);
    }
  }

  /** Bringing one or the other row of a mixed title to the front gives different approvals. */
  lemma {:induction false} SplitApprovals(h: Hash, cs: seq<CompanyRow>, approved: set<string>, titles: Ledger, raws: seq<TitleRow>, i: nat, j: nat)
    requires i < |raws| && j < |raws| && Kept(cs, raws[i]) && Kept(cs, raws[j])
    requires IdentityOf(h, raws[i]) == IdentityOf(h, raws[j]) && Sourced(raws[i]) != Sourced(raws[j])
    ensures !SameApprovals(h, cs, approved, titles, raws, Fronted(raws, i)) || !SameApprovals(h, cs, approved, titles, raws, Fronted(raws, j))
  {
    hide TitlesFrom, FirstRow, Kept, IdentityOf, Sourced, ApprovedComparables, ApprovedRelationships, Fronted;
    var id := IdentityOf(h, raws[i]);
    FirstOfFront(h, cs, Fronted(raws, i), id);
    FirstOfFront(h, cs, Fronted(raws, j), id);
    ComparableApproved(h, cs, approved, titles, raws, id);
    ComparableApproved(h, cs, approved, titles, Fronted(raws, i), id);
    ComparableApproved(h, cs, approved, titles, Fronted(raws, j), id);
  }

  // ---- payloads that pass read_handoff ----------------------------------------------------------

  function RawIds(cs: seq<CompanyRow>): (ids: seq<string>)
    ensures |ids| == |cs| && forall i :: 0 <= i < |cs| ==> ids[i] == cs[i].id
  { seq(|cs|, i requires 0 <= i < |cs| => cs[i].id) }

  /** What read_handoff checks of the rows it returns. */
  ghost predicate Handoff(p: Payload) {
    && |p.companies| == 101 && Distinct(RawIds(p.companies))
    && |p.titles| == 205
    && (forall c :: c in p.companies ==> c.sourceUrl != "")
    && (forall x :: x in p.titles ==> x.sourceUrl != "" && Sourced(x) && exists c :: c in p.companies && c.name == x.companyName)
  }

  /** On such a payload every comparable is approved, each relationship is approved
      exactly when its company is, and the order of the rows decides nothing. */
  lemma {:induction false} HandoffApproval(h: Hash, p: Payload, ledger: Ledger, titles: Ledger)
    requires Handoff(p)
    ensures var d := Build(h, p, ledger, titles);
            && (forall c :: c in d.comparables ==> c.state == Approved)
            && (forall r :: r in d.relationships ==>
                  (r.state == Approved <==> exists c :: c in d.companies && c.id == r.targetId && c.state == Approved))
    ensures Uniform(h, p.companies, p.titles)
  {
    hide TitlesFrom, FirstRow, Kept, IdentityOf, Sourced, CompanyReview, KeptRows, Target, RelationshipId, CompanyClaims, ComparableFor;
    var cs, raws, approved := p.companies, p.titles, ApprovedCompanies(p.companies, ledger);
    var t, d := TitlesFrom(h, cs, approved, titles, raws), Build(h, p, ledger, titles);
    TwoPasses(h, cs, approved, titles, raws);
    KeptRowsAre(cs, raws);
    forall c | c in d.comparables ensures c.state == Approved {
      var i :| 0 <= i < |d.comparables| && d.comparables[i] == c;
      var id := t.order[i];
      assert id in t.comparables;
      FirstRowIs(h, cs, raws, id);
      StateOfComparable(h, cs, titles, FirstRow(h, cs, raws, id).value);
    }
    forall r | r in d.relationships
      ensures r.state == Approved <==> exists c :: c in d.companies && c.id == r.targetId && c.state == Approved
    {
      var k :| 0 <= k < |t.relationships| && t.relationships[k] == r;
      var x := KeptRows(cs, raws)[k];
      assert x in KeptRows(cs, raws);
      FirstRowIs(h, cs, raws, IdentityOf(h, x));
      ApprovedCompanyRows(cs, ledger, Target(cs, x));
    }
  }

  lemma {:induction false} ApprovedCompanyRows(cs: seq<CompanyRow>, ledger: Ledger, id: string)
    ensures id in ApprovedCompanies(cs, ledger) <==> exists c :: c in Companies(cs, ledger) && c.id == id && c.state == Approved
  {
    hide CompanyReview, CompanyClaims;
    var rows := Companies(cs, ledger);
    if id in ApprovedCompanies(cs, ledger) {
      var i :| 0 <= i < |cs| && cs[i].id == id && CompanyReview(cs[i], ledger).Passed?;
      assert rows[i] in rows && rows[i].state == Approved;
    }
    if c :| c in rows && c.id == id && c.state == Approved {
      var i :| 0 <= i < |rows| && rows[i] == c;
      assert cs[i] in cs;
    }
  }

  // ---- what the ledger can decide ------------------------------------------------------------------

  /** The ledger moves a company only where the profile came from a directory, and
      then only by its confirmation. */
  lemma {:induction false} LedgerDecidesDirectoriesOnly(c: CompanyRow, a: Ledger, b: Ledger)
    requires CompanyReview(c, a) != CompanyReview(c, b)
    ensures c.verificationStatus == DIRECTORY && Confirmed(a, c.id) != Confirmed(b, c.id)
    ensures CompanyReview(c, if Confirmed(a, c.id) then b else a) == HeldBack(Unconfirmed)
  {
  }

  /** A company is approved with its claims saying so: trading, with a role, and
      reviewed on a date. */
  lemma {:induction false} ApprovedIsActive(c: CompanyRow, ledger: Ledger)
    ensures var row := CompanyFor(c, ledger);
            && (row.state == Approved <==> row.reviewedOn.Some?)
            && (row.state == Approved ==> "active" in row.claims && row.claims["active"].value == Flag(true) && c.roles != {})
            && !row.rulesComplete
  {
    hide ListFrom, Confirmed;
    assert |"active"| == 6 && |"rights_territories"| == 18 && |"formats"| == 7 && |"acquisition_stages"| == 18;
    assert "active"[0] != "genres"[0];
  }

  // ---- the ledger grows ----------------------------------------------------------------------------

  /** `b` keeps every claim of `a`. */
  ghost predicate Extends(a: Ledger, b: Ledger) { forall k :: k in a ==> k in b && b[k] == a[k] }

  lemma {:induction false} ReviewMonotone(c: CompanyRow, a: Ledger, b: Ledger)
    requires Extends(a, b) && CompanyReview(c, a).Passed?
    ensures CompanyReview(c, b) == CompanyReview(c, a)
  {
    hide CompanyReview;
    if CompanyReview(c, a) != CompanyReview(c, b) { LedgerDecidesDirectoriesOnly(c, a, b); }
  }

  /** Growing the ledger only ever approves more: companies and relationships row
      by row, comparables not at all. */
  lemma {:induction false} ApprovalMonotone(h: Hash, p: Payload, a: Ledger, b: Ledger, titles: Ledger, later: Ledger)
    requires Extends(a, b)
    ensures var d, e := Build(h, p, a, titles), Build(h, p, b, later);
            && |e.companies| == |d.companies| && |e.comparables| == |d.comparables| && |e.relationships| == |d.relationships|
            && (forall i :: 0 <= i < |d.companies| ==> e.companies[i].id == d.companies[i].id)
            && (forall i :: 0 <= i < |d.companies| && d.companies[i].state == Approved ==> e.companies[i].state == Approved)
            && (forall i :: 0 <= i < |d.relationships| ==> e.relationships[i].id == d.relationships[i].id)
            && (forall i :: 0 <= i < |d.relationships| && d.relationships[i].state == Approved ==> e.relationships[i].state == Approved)
            && (forall i :: 0 <= i < |d.comparables| ==> e.comparables[i].id == d.comparables[i].id && e.comparables[i].state == d.comparables[i].state)
  {
    hide TitlesFrom, CompanyReview, CompanyClaims, TwoPass, ApprovedCompanies, Extends;
    forall i | 0 <= i < |p.companies| && CompanyReview(p.companies[i], a).Passed? ensures CompanyReview(p.companies[i], b).Passed? {
      ReviewMonotone(p.companies[i], a, b);
    }
    MoreCompanies(p.companies, a, b);
    SameTitles(h, p.companies, ApprovedCompanies(p.companies, a), ApprovedCompanies(p.companies, b), titles, later, p.titles);
  }

  lemma {:induction false} MoreCompanies(cs: seq<CompanyRow>, a: Ledger, b: Ledger)
    requires Extends(a, b)
    ensures ApprovedCompanies(cs, a) <= ApprovedCompanies(cs, b)
  {
  }

  /** Same ids in the same order; `u` approves the comparables `t` does, and at
      least its relationships. */
  ghost predicate ApprovesNoLess(t: Titles, u: Titles) {
    && t.order == u.order
    && (forall id :: id in t.order <==> id in t.comparables)
    && (forall id :: id in t.comparables <==> id in u.comparables)
    && (forall id :: id in t.comparables ==>
          t.comparables[id].id == id == u.comparables[id].id && t.comparables[id].state == u.comparables[id].state)
    && |t.relationships| == |u.relationships|
    && (forall i :: 0 <= i < |t.relationships| ==> t.relationships[i].id == u.relationships[i].id)
    && (forall i :: 0 <= i < |t.relationships| && t.relationships[i].state == Approved ==> u.relationships[i].state == Approved)
  }

  lemma {:induction false} StepApprovesNoLess(h: Hash, cs: seq<CompanyRow>, few: set<string>, many: set<string>, titles: Ledger, later: Ledger,
                                              t: Titles, u: Titles, raw: TitleRow)
    requires few <= many && ApprovesNoLess(t, u)
    ensures ApprovesNoLess(TitleStep(h, cs, few, titles, t, raw), TitleStep(h, cs, many, later, u, raw))
  {
    hide Kept, IdentityOf, Sourced, Target, ComparableFor, Seen, RelationshipId;
    StateOfComparable(h, cs, titles, raw);
    StateOfComparable(h, cs, later, raw);
  }

  /** The titles built for more approved companies and another title ledger. */
  lemma {:induction false} SameTitles(h: Hash, cs: seq<CompanyRow>, few: set<string>, many: set<string>, titles: Ledger, later: Ledger, raws: seq<TitleRow>)
    requires few <= many
    ensures ApprovesNoLess(TitlesFrom(h, cs, few, titles, raws), TitlesFrom(h, cs, many, later, raws))
  {
    hide TitleStep;
    if raws != [] {
      var n := |raws| - 1;
      SameTitles(h, cs, few, many, titles, later, raws[..n]);
      StepApprovesNoLess(h, cs, few, many, titles, later, TitlesFrom(h, cs, few, titles, raws[..n]),
                         TitlesFrom(h, cs, many, later, raws[..n]), raws[n]);
    }
  }

  // ---- counting ------------------------------------------------------------------------------------

  lemma {:induction false} ApprovedSnoc(states: seq<ReviewState>, state: ReviewState)
    ensures CountApproved(states + [state]) == CountApproved(states) + if state == Approved then 1 else 0
  {
    assert (states + [state])[..|states|] == states;
  }

  lemma {:induction false} StateOfCompany(c: CompanyRow, ledger: Ledger)
    ensures CompanyFor(c, ledger).state == Approved <==> CompanyReview(c, ledger).Passed?
  {
    hide CompanyReview, CompanyClaims;
  }

  /** Every company seen is approved or tallied under one reason. */
  lemma {:induction false} EveryCompanyTallied(cs: seq<CompanyRow>, ledger: Ledger)
    ensures |cs| == CountApproved(CompanyStates(Companies(cs, ledger))) + |HeldBackOf(cs, ledger)|
  {
    hide CompanyFor;
    if cs != [] {
      var n := |cs| - 1;
      EveryCompanyTallied(cs[..n], ledger);
      var states, front := CompanyStates(Companies(cs, ledger)), CompanyStates(Companies(cs[..n], ledger));
      assert states == front + [CompanyFor(cs[n], ledger).state];
      ApprovedSnoc(front, CompanyFor(cs[n], ledger).state);
      StateOfCompany(cs[n], ledger);
    }
  }
}
