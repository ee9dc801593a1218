/** The identity strings staged cycles and rules are known by.

    UUID version 5 (section 4.3 of RFC 4122) is an ideal hash here: a function
    parameter that is injective and whose text holds no colon. What is proved is
    that the strings fed to it can be read back without ambiguity. */
module Identity {
  import opened Base
  import opened Text
  import opened Dates

  type Hash = string -> string

  ghost predicate Injective(h: Hash) { forall a, b :: h(a) == h(b) ==> a == b }

  ghost predicate Ideal(h: Hash) {
    && Injective(h)
    && forall a :: Free(':', h(a))
  }

  /** f"{deadline}" for a date or None. */
  function DeadlineText(deadline: Option<Date>): (s: string)
    ensures Free(':', s)
  {
    match deadline case None => "None" case Some(d) => IsoText(d)
  }

  function CycleName(kind: string, recordId: string, section: string, deadline: Option<Date>): string {
    kind + ":" + (recordId + ":" + (section + ":" + DeadlineText(deadline)))
  }

  function CycleId(h: Hash, kind: string, recordId: string, section: string, deadline: Option<Date>): string {
    h(CycleName(kind, recordId, section, deadline))
  }

  function RuleName(cycle: string, index: nat, field: string, condition: string): string {
    cycle + ":" + (Decimal(index) + ":" + (field + ":" + condition))
  }

  function RuleId(h: Hash, cycle: string, index: nat, field: string, condition: string): string {
    h(RuleName(cycle, index, field, condition))
  }

  lemma {:induction false} DeadlineTextInjective(a: Option<Date>, b: Option<Date>)
    requires DeadlineText(a) == DeadlineText(b)
    ensures a == b
  {
    if a.Some? && b.Some? {
      IsoTextInjective(a.value, b.value);
    } else {
      assert |DeadlineText(a)| == |DeadlineText(b)|;
    }
  }

  /** kind:record:section:deadline can be read back, whatever the section holds:
      the first two colons and the last one are the separators. */
  lemma {:induction false} CycleNameInjective(k1: string, r1: string, s1: string, d1: Option<Date>,
                           k2: string, r2: string, s2: string, d2: Option<Date>)
    requires Free(':', k1) && Free(':', r1) && Free(':', k2) && Free(':', r2)
    requires CycleName(k1, r1, s1, d1) == CycleName(k2, r2, s2, d2)
    ensures k1 == k2 && r1 == r2 && s1 == s2 && d1 == d2
  {
    var x1, x2 := s1 + ":" + DeadlineText(d1), s2 + ":" + DeadlineText(d2);
    FirstSeparator(':', k1, r1 + ":" + x1, k2, r2 + ":" + x2);
    FirstSeparator(':', r1, x1, r2, x2);
    LastSeparator(':', s1, DeadlineText(d1), s2, DeadlineText(d2));
    DeadlineTextInjective(d1, d2);
  }

  lemma {:induction false} DecimalFree(n: nat)
    ensures Free(':', Decimal(n))
  {
  }

  /** cycle:index:field:condition can be read back, whatever the condition holds. */
  lemma {:induction false} RuleNameInjective(c1: string, i1: nat, f1: string, t1: string,
                          c2: string, i2: nat, f2: string, t2: string)
    requires Free(':', c1) && Free(':', f1) && Free(':', c2) && Free(':', f2)
    requires RuleName(c1, i1, f1, t1) == RuleName(c2, i2, f2, t2)
    ensures c1 == c2 && i1 == i2 && f1 == f2 && t1 == t2
  {
    DecimalFree(i1);
    DecimalFree(i2);
    FirstSeparator(':', c1, Decimal(i1) + ":" + (f1 + ":" + t1), c2, Decimal(i2) + ":" + (f2 + ":" + t2));
    FirstSeparator(':', Decimal(i1), f1 + ":" + t1, Decimal(i2), f2 + ":" + t2);
    FirstSeparator(':', f1, t1, f2, t2);
    DecimalInjective(i1, i2);
  }

  /** Two cycles share an id exactly when they are the same section of the same
      record with the same deadline. */
  lemma {:induction false} CycleIdentity(h: Hash, k1: string, r1: string, s1: string, d1: Option<Date>,
                      k2: string, r2: string, s2: string, d2: Option<Date>)
    requires Ideal(h)
    requires Free(':', k1) && Free(':', r1) && Free(':', k2) && Free(':', r2)
    ensures CycleId(h, k1, r1, s1, d1) == CycleId(h, k2, r2, s2, d2) <==>
            k1 == k2 && r1 == r2 && s1 == s2 && d1 == d2
  {
    if CycleId(h, k1, r1, s1, d1) == CycleId(h, k2, r2, s2, d2) {
      CycleNameInjective(k1, r1, s1, d1, k2, r2, s2, d2);
    }
  }

  /** The colon-free hypothesis is needed: a colon in the record id lets the
      boundary with the section move. */
  lemma {:induction false} ColonInRecordIdIsAmbiguous(h: Hash)
    ensures CycleId(h, "FESTIVAL", "a:b", "c", None) == CycleId(h, "FESTIVAL", "a", "b:c", None)
  {
    assert CycleName("FESTIVAL", "a:b", "c", None) == CycleName("FESTIVAL", "a", "b:c", None);
  }

  // ---- the texts themselves ------------------------------------------------------------

  /** The hashed text of a cycle, and of a rule, in full. */
  lemma {:induction false} NameTexts(h: Hash, kind: string, recordId: string, section: string, deadline: Date, index: nat, field: string, condition: string)
    ensures CycleId(h, kind, recordId, section, Some(deadline)) == h(kind + ":" + recordId + ":" + section + ":" + IsoText(deadline))
    ensures CycleId(h, kind, recordId, section, None) == h(kind + ":" + recordId + ":" + section + ":" + "None")
    ensures RuleId(h, kind, index, field, condition) == h(kind + ":" + Decimal(index) + ":" + field + ":" + condition)
  {
    forall d: string ensures kind + ":" + (recordId + ":" + (section + ":" + d)) == kind + ":" + recordId + ":" + section + ":" + d { }
    assert kind + ":" + (Decimal(index) + ":" + (field + ":" + condition)) == kind + ":" + Decimal(index) + ":" + field + ":" + condition;
  }

  // ---- ideal hashes exist ----------------------------------------------------

  /** A concrete injective rendering without colons. */
  function Escape(s: string): string {
    if s == "" then ""
    else (if s[0] == ':' then "\\." else if s[0] == '\\' then "\\\\" else [s[0]]) + Escape(s[1..])
  }

  lemma {:induction false} EscapeIdeal(a: string, b: string)
    ensures Free(':', Escape(a))
    ensures Escape(a) == Escape(b) ==> a == b
    decreases |a| + |b|
  {
    if a != "" {
      EscapeIdeal(a[1..], if b == "" then "" else b[1..]);
      if b != "" && Escape(a) == Escape(b) {
        var x, y := Escape(a), Escape(b);
        assert x[0] == y[0];
        var n := if a[0] == ':' || a[0] == '\\' then 2 else 1;
        assert x[n..] == Escape(a[1..]);
        if n == 2 { assert x[1] == y[1]; }
        assert y[n..] == Escape(b[1..]);
        assert a == [a[0]] + a[1..] && b == [b[0]] + b[1..];
      }
    }
  }

  lemma {:induction false} IdealHashExists()
    ensures exists h: Hash :: Ideal(h)
  {
    forall a, b ensures Free(':', Escape(a)) && (Escape(a) == Escape(b) ==> a == b) { EscapeIdeal(a, b); }
    assert Ideal(Escape);
  }
}
