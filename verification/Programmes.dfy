/** enable_programme_questions: `plan` and `apply_plan` over the two tables. */
module Programmes {
  import opened Base
  import opened Text
  import opened Slugs

  datatype Programme = Programme(
    id: string, programmeId: Option<string>, program: Option<string>, territory: Option<string>, status: Option<string>,
    engineType: Option<string>, country: Option<string>, subdivision: Option<string>)

  /** One row of programme_required_inputs. */
  datatype InputRow = InputRow(id: string, programmeId: string, inputKey: string, wording: string, helpText: string)

  datatype Jurisdiction = Jurisdiction(territoryId: string, subdivisionId: Option<string>)

  /** resolve_jurisdiction, None where it raises UnknownJurisdiction. */
  type Resolver = string -> Option<Jurisdiction>

  /** CANONICAL_INPUTS.get(key, key) */
  type Labels = string -> string

  // ---- reading a row -----------------------------------------------------------

  /** `str(value or "")` */
  function Str(o: Option<string>): string { if o.Some? then o.value else "" }

  predicate Active(r: Programme) {
    var s := Lower(Strip(if Str(r.status) == "" then "active" else Str(r.status)));
    s == "active" || s == ""
  }

  function Engine(r: Programme): string { Upper(Strip(Str(r.engineType))) }

  function Name(r: Programme): string { if Str(r.program) == "" then r.id else Str(r.program) }

  function Pid(r: Programme): string { Strip(Str(r.programmeId)) }

  function Where(r: Programme): (string, string) { (Name(r), Str(r.territory)) }

  /** The code a slug starts with. */
  function Place(j: Jurisdiction): string { if Str(j.subdivisionId) == "" then j.territoryId else Str(j.subdivisionId) }

  const NON_SPEND: set<string> := {"INVESTOR_TAX_SHELTER", "COMPETITIVE_GRANT", "NO_PROGRAMME"}
  const MULTI_BUCKET := "MULTI_BUCKET"

  /** ENGINE_REQUIRED_INPUTS.get(engine, ()) */
  function Required(engine: string): seq<string> {
    if engine == "CORE_LOWER_OF" then ["local_core_expenditure", "global_core_expenditure"]
    else if engine == "ELIGIBLE_LOCAL_SPEND" || engine == "TIERED_SPEND" then ["eligible_local_spend"]
    else if engine == "QUALIFIED_LABOUR" then ["qualified_labour"]
    else if engine == "QAPE" then ["qape"]
    else if engine == "QNZPE" then ["qnzpe"]
    else if engine == "VFX_ONLY" then ["vfx_expenditure"]
    else if engine == "PDV_ONLY" then ["pdv_expenditure"]
    else []
  }

  function Declared(inputs: map<string, InputRow>, slug: string): set<string> {
    set i | i in inputs && inputs[i].programmeId == slug :: inputs[i].inputKey
  }

  /** The programme ids in use when planning starts. */
  function Taken(rows: seq<Programme>): set<string> {
    set r | r in rows && Str(r.programmeId) != "" :: Pid(r)
  }

  // ---- plan --------------------------------------------------------------------

  datatype Question = Question(slug: string, key: string, wording: string)

  datatype Placing = Placing(id: string, country: string, subdivision: Option<string>)

  datatype Naming = Naming(id: string, slug: string)

  /** EnableResult, with the growing `taken` set beside it. */
  datatype Plan = Plan(
    jurisdictions: seq<Placing>, slugs: seq<Naming>, questions: seq<Question>,
    unresolved: seq<(string, string)>, multiBucket: seq<(string, string)>, collisions: seq<(string, string)>,
    answerable: nat, taken: set<string>)

  function Needed(required: seq<string>, have: set<string>): seq<string> {
    if required == [] then []
    else
      var n := |required| - 1;
      Needed(required[..n], have) + if required[n] in have then [] else [required[n]]
  }

  function Ask(labels: Labels, slug: string, keys: seq<string>): (qs: seq<Question>)
    ensures |qs| == |keys| && forall i :: 0 <= i < |keys| ==> qs[i] == Question(slug, keys[i], labels(keys[i]))
  { seq(|keys|, i requires 0 <= i < |keys| => Question(slug, keys[i], labels(keys[i]))) }

  /** What a programme known by `slug` still has to be asked. */
  function PlanInputs(labels: Labels, inputs: map<string, InputRow>, p: Plan, r: Programme, slug: string): Plan {
    if Engine(r) in NON_SPEND || Engine(r) == "" then p
    else if Engine(r) == MULTI_BUCKET then
      if Declared(inputs, slug) == {} then p.(multiBucket := p.multiBucket + [Where(r)]) else p
    else
      var needed := Needed(Required(Engine(r)), Declared(inputs, slug));
      if needed == [] then p.(answerable := p.answerable + 1)
      else p.(questions := p.questions + Ask(labels, slug, needed))
  }

  function PlanRow(resolve: Resolver, labels: Labels, inputs: map<string, InputRow>, p: Plan, r: Programme): Plan {
    if !Active(r) then p
    else
      match resolve(Str(r.territory))
      case None => p.(unresolved := p.unresolved + [Where(r)])
      case Some(j) =>
        var q := if Blank(Str(r.country))
                 then p.(jurisdictions := p.jurisdictions + [Placing(r.id, j.territoryId, j.subdivisionId)]) else p;
        if Pid(r) != "" then PlanInputs(labels, inputs, q, r, Pid(r))
        else
          match ProgrammeSlug(Place(j), Str(r.program), q.taken)
          case None => q.(collisions := q.collisions + [Where(r)])
          case Some(slug) =>
            PlanInputs(labels, inputs, q.(taken := q.taken + {slug}, slugs := q.slugs + [Naming(r.id, slug)]), r, slug)
  }

  function Unplanned(taken: set<string>): Plan { Plan([], [], [], [], [], [], 0, taken) }

  /** The plan after the first rows, starting from `taken`. */
  function PlanFrom(resolve: Resolver, labels: Labels, inputs: map<string, InputRow>, taken: set<string>, rows: seq<Programme>): Plan {
    if rows == [] then Unplanned(taken)
    else
      var n := |rows| - 1;
      PlanRow(resolve, labels, inputs, PlanFrom(resolve, labels, inputs, taken, rows[..n]), rows[n])
  }

  function PlanAll(resolve: Resolver, labels: Labels, inputs: map<string, InputRow>, rows: seq<Programme>): Plan {
    PlanFrom(resolve, labels, inputs, Taken(rows), rows)
  }

  // ---- apply_plan -----------------------------------------------------------------

  function Placed(r: Programme, js: seq<Placing>): Programme {
    if js == [] then r
    else
      var n := |js| - 1;
      var q := Placed(r, js[..n]);
      if js[n].id == r.id then q.(country := Some(js[n].country), subdivision := js[n].subdivision) else q
  }

  function Named(r: Programme, ns: seq<Naming>): Programme {
    if ns == [] then r
    else
      var n := |ns| - 1;
      var q := Named(r, ns[..n]);
      if ns[n].id == r.id then q.(programmeId := Some(ns[n].slug)) else q
  }

  function PlacedRows(rows: seq<Programme>, js: seq<Placing>): (r: seq<Programme>)
    ensures |r| == |rows| && forall i :: 0 <= i < |rows| ==> r[i] == Placed(rows[i], js)
  { seq(|rows|, i requires 0 <= i < |rows| => Placed(rows[i], js)) }

  function NamedRows(rows: seq<Programme>, ns: seq<Naming>): (r: seq<Programme>)
    ensures |r| == |rows| && forall i :: 0 <= i < |rows| ==> r[i] == Named(rows[i], ns)
  { seq(|rows|, i requires 0 <= i < |rows| => Named(rows[i], ns)) }

  function QuestionRow(q: Question): InputRow { InputRow(q.slug + ":" + q.key, q.slug, q.key, q.wording, "") }

  function QuestionRows(qs: seq<Question>): (r: seq<InputRow>)
    ensures |r| == |qs| && forall i :: 0 <= i < |qs| ==> r[i] == QuestionRow(qs[i])
  { seq(|qs|, i requires 0 <= i < |qs| => QuestionRow(qs[i])) }

  function QuestionIds(qs: seq<Question>): (ids: seq<string>)
    ensures |ids| == |qs| && forall i :: 0 <= i < |qs| ==> ids[i] == qs[i].slug + ":" + qs[i].key
  { seq(|qs|, i requires 0 <= i < |qs| => qs[i].slug + ":" + qs[i].key) }

  datatype Catalogue = Catalogue(programmes: seq<Programme>, inputs: map<string, InputRow>)

  /** The id column of programme_required_inputs is varchar(64). */
  const ID_WIDTH := 64

  predicate Fits(slug: string, key: string) { |slug| + 1 + |key| <= ID_WIDTH }

  predicate AllFit(qs: seq<Question>) { forall q :: q in qs ==> Fits(q.slug, q.key) }

  /** None when a question's id is too long or already there: the whole apply is
      rolled back. */
  function ApplyPlan(c: Catalogue, p: Plan): Option<Catalogue> {
    if !AllFit(p.questions) then None
    else
      match InsertAll(c.inputs, QuestionIds(p.questions), QuestionRows(p.questions))
      case None => None
      case Some(inputs) => Some(Catalogue(NamedRows(PlacedRows(c.programmes, p.jurisdictions), p.slugs), inputs))
  }

  // ---- the script ---------------------------------------------------------------------

  class Database {
    var programmes: seq<Programme>
    var inputs: map<string, InputRow>

    ghost function Contents(): Catalogue
      reads this
    {
      Catalogue(programmes, inputs)
    }

    /** `plan`: reads both tables once and decides row by row. */
    method Planning(resolve: Resolver, labels: Labels) returns (p: Plan)
      ensures p == PlanAll(resolve, labels, inputs, programmes)
    {
      p := Unplanned(Taken(programmes));
      for i := 0 to |programmes|
        invariant p == PlanFrom(resolve, labels, inputs, Taken(programmes), programmes[..i])
      {
        assert programmes[..i + 1][..i] == programmes[..i];
        var r := programmes[i];
        if !Active(r) { continue; }
        var j := resolve(Str(r.territory));
        if j.None? {
          p := p.(unresolved := p.unresolved + [Where(r)]);
          continue;
        }
        if Blank(Str(r.country)) {
          p := p.(jurisdictions := p.jurisdictions + [Placing(r.id, j.value.territoryId, j.value.subdivisionId)]);
        }
        var slug := Pid(r);
        if slug == "" {
          var s := ProgrammeSlug(Place(j.value), Str(r.program), p.taken);
          if s.None? {
            p := p.(collisions := p.collisions + [Where(r)]);
            continue;
          }
          slug := s.value;
          p := p.(taken := p.taken + {slug}, slugs := p.slugs + [Naming(r.id, slug)]);
        }
        p := PlanInputs(labels, inputs, p, r, slug);
      }
      assert programmes[..|programmes|] == programmes;
    }

    /** `apply_plan`: place, name, then insert the questions, in one transaction. */
    method Apply(p: Plan) returns (ok: bool)
      modifies this
      ensures ok <==> ApplyPlan(old(Contents()), p).Some?
      ensures Contents() == if ok then ApplyPlan(old(Contents()), p).value else old(Contents())
    {
      var placed := PlaceAll(programmes, p.jurisdictions);
      var rows := NameAll(placed, p.slugs);
      var added := InsertAll(inputs, QuestionIds(p.questions), QuestionRows(p.questions));
      if added.None? || !AllFit(p.questions) { return false; }
      programmes, inputs := rows, added.value;
      return true;
    }
  }

  /** One UPDATE per jurisdiction, by primary key. */
  method PlaceAll(programmes: seq<Programme>, js: seq<Placing>) returns (rows: seq<Programme>)
    ensures rows == PlacedRows(programmes, js)
  {
    rows := programmes;
    for i := 0 to |js|
      invariant rows == PlacedRows(programmes, js[..i])
    {
      assert js[..i + 1][..i] == js[..i];
      PlacedKeepsId(programmes, js[..i]);
      rows := seq(|rows|, k requires 0 <= k < |rows| =>
        if rows[k].id == js[i].id then rows[k].(country := Some(js[i].country), subdivision := js[i].subdivision) else rows[k]);
    }
    assert js[..|js|] == js;
  }

  /** One UPDATE per new slug, by primary key. */
  method NameAll(programmes: seq<Programme>, ns: seq<Naming>) returns (rows: seq<Programme>)
    ensures rows == NamedRows(programmes, ns)
  {
    rows := programmes;
    for i := 0 to |ns|
      invariant rows == NamedRows(programmes, ns[..i])
    {
      assert ns[..i + 1][..i] == ns[..i];
      NamedKeepsId(programmes, ns[..i]);
      rows := seq(|rows|, k requires 0 <= k < |rows| =>
        if rows[k].id == ns[i].id then rows[k].(programmeId := Some(ns[i].slug)) else rows[k]);
    }
    assert ns[..|ns|] == ns;
  }

  lemma {:induction false} PlacedId(r: Programme, js: seq<Placing>)
    ensures Placed(r, js).id == r.id
  {
    if js != [] { PlacedId(r, js[..|js| - 1]); }
  }

  lemma {:induction false} NamedId(r: Programme, ns: seq<Naming>)
    ensures Named(r, ns).id == r.id
  {
    if ns != [] { NamedId(r, ns[..|ns| - 1]); }
  }

  lemma {:induction false} PlacedKeepsId(rows: seq<Programme>, js: seq<Placing>)
    ensures forall i :: 0 <= i < |rows| ==> PlacedRows(rows, js)[i].id == rows[i].id
  {
    forall i | 0 <= i < |rows| ensures PlacedRows(rows, js)[i].id == rows[i].id { PlacedId(rows[i], js); }
  }

  lemma {:induction false} NamedKeepsId(rows: seq<Programme>, ns: seq<Naming>)
    ensures forall i :: 0 <= i < |rows| ==> NamedRows(rows, ns)[i].id == rows[i].id
  {
    forall i | 0 <= i < |rows| ensures NamedRows(rows, ns)[i].id == rows[i].id { NamedId(rows[i], ns); }
  }
}
