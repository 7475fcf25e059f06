/**
 * The query the controller hands to `sequelize.query`: SQL text with named
 * replacements (`:name`) and the map `subs` of their values. Each requested field
 * is referred to only by its 0-based ordinal (`:field0`, and the column alias "0");
 * field names, source ids and the city travel only as values in `subs`.
 */
module QueryBuilder {
  import opened Wrappers
  import opened JsStrings
  import opened JsObjects
  import opened Validation

  /**
   * The name of a replacement: one of the fixed names, or `field<i>` for the field
   * at ordinal i.
   */
  datatype Name = ResolutionKey | From | Before | FieldList | Op | Sources | City | Field(i: nat)

  /** The key a name has in `subs`. */
  function NameText(n: Name): string {
    match n
    case ResolutionKey => "resolution"
    case From => "from"
    case Before => "before"
    case FieldList => "fields"
    case Op => "op"
    case Sources => "sources"
    case City => "city"
    case Field(i) => "field" + Decimal(i)
  }

  /**
   * `NameText` is one-to-one: `field<i>` is never a fixed name and two ordinals give
   * two keys. So `subs` keyed by `Name` is the controller's object keyed by string.
   */
  lemma NameTextInjective(a: Name, b: Name)
    ensures NameText(a) == NameText(b) ==> a == b
  {
    if NameText(a) == NameText(b) {
      if a.Field? && b.Field? {
        assert Decimal(a.i) == NameText(a)[5..];
        assert Decimal(b.i) == NameText(b)[5..];
        DecimalInjective(a.i, b.i);
      } else if a.Field? {
        FieldTextNotNamed(a.i, b);
      } else if b.Field? {
        FieldTextNotNamed(b.i, a);
      }
    }
  }

  lemma FieldTextNotNamed(i: nat, n: Name)
    requires !n.Field?
    ensures NameText(Field(i)) != NameText(n)
  {
    var t := NameText(Field(i));
    assert t[5] == Decimal(i)[0];
    assert IsDigit(t[5]);
  }

  /** The fixed pieces of SQL text the two queries are made of. */
  datatype Fragment =
    | Comma | FieldOpen | Pick
    | SourcesSelect | SourcesFrom | SourcesBucket | SourcesTimes | SourcesWhere | SourcesBeforeCast | SourcesEnd
    | CitySelect | CityAs | CityFrom | CityTimes | CityWhere | CityFromCond | CityBeforeCast | CityEnd

  function FragmentText(f: Fragment): string {
    match f
    case Comma => ", "
    case FieldOpen => "float8(rollup.data->>"
    case Pick => ") AS t, rollup_pick(rollup_agg(r.data), "
    case SourcesSelect => "SELECT sourcelist.source, rollup.t AS \"timestamp\", "
    case SourcesFrom => " FROM (SELECT unnest::CHARACTER(25) AS source FROM unnest("
    case SourcesBucket => ")) AS sourcelist, LATERAL (SELECT to_timestamp(trunc(EXTRACT(EPOCH FROM r.ts) / "
    case SourcesTimes => ") * "
    case SourcesWhere => ") AS data FROM rollup_5min AS r WHERE r.source = sourcelist.source AND r.ts >= "
    case SourcesBeforeCast => "::TIMESTAMPTZ AND r.ts < "
    case SourcesEnd => "::TIMESTAMPTZ GROUP BY t ORDER BY t) AS rollup"
    case CitySelect => "SELECT "
    case CityAs => " AS city, rollup.t AS \"timestamp\", "
    case CityFrom => " FROM (SELECT to_timestamp(trunc(EXTRACT(EPOCH FROM r.ts) / ("
    case CityTimes => ")) * "
    case CityWhere => ") AS data FROM rollup_5min r, sources s WHERE r.source = s.source AND s.data->>'city' = "
    case CityFromCond => " AND r.ts >= "
    case CityBeforeCast => "::timestamp with time zone AND r.ts < "
    case CityEnd => "::timestamp with time zone GROUP BY t ORDER BY t) AS rollup"
  }

  /**
   * A piece of the query text: a fixed fragment, the column alias `) AS "<i>"` of
   * selector i, or a named replacement `:name`.
   */
  datatype Token = Lit(f: Fragment) | Alias(i: nat) | Param(name: Name)

  /** The SQL text with its replacements still named, as sequelize receives it. */
  function Render(tokens: seq<Token>): string {
    if tokens == [] then ""
    else
      (match tokens[0]
       case Lit(f) => FragmentText(f)
       case Alias(i) => ") AS \"" + Decimal(i) + "\""
       case Param(name) => ":" + NameText(name)) + Render(tokens[1..])
  }

  /** A replacement value: a number, a Date, a string or an array of strings. */
  datatype Bind = BNumber(n: int) | BDate(d: Date) | BText(s: string) | BList(items: seq<string>)

  datatype SqlQuery = SqlQuery(tokens: seq<Token>, subs: map<Name, Bind>)

  /** The two queries: one series per source id, or one series over a city. */
  datatype Branch = SourcesBranch | CityBranch

  /** `selectorTemplate({i})`: `float8(rollup.data->>:field${i}) AS "${i}"`. */
  function Selector(i: nat): seq<Token> {
    [Lit(FieldOpen), Param(Field(i)), Alias(i)]
  }

  /** Selector i renders as the template with `${i}` filled in twice: `float8(rollup.data->>:field<i>) AS "<i>"`. */
  lemma SelectorText(i: nat)
    ensures Render(Selector(i)) == "float8(rollup.data->>:field" + Decimal(i) + ") AS \"" + Decimal(i) + "\""
  {
    var s, d := Selector(i), Decimal(i);
    var alias := ") AS \"" + d + "\"";
    assert Render(s[2..]) == alias by {
      assert s[2..][1..] == [];
    }
    assert Render(s[1..]) == ":" + ("field" + d) + alias by {
      assert s[1..][1..] == s[2..];
    }
    assert "float8(rollup.data->>" + (":" + ("field" + d) + alias) == "float8(rollup.data->>:field" + d + alias;
  }

  /** `fieldSelectors.join(', ')`. */
  function JoinSelectors(selectors: seq<seq<Token>>): seq<Token> {
    if selectors == [] then []
    else if |selectors| == 1 then selectors[0]
    else selectors[0] + [Lit(Comma)] + JoinSelectors(selectors[1..])
  }

  /** `fieldSelectors` once n fields have been visited: the selectors of ordinals 0 to n-1. */
  function Selectors(n: nat): (s: seq<seq<Token>>)
    ensures |s| == n && forall k :: 0 <= k < n ==> s[k] == Selector(k)
  {
    if n == 0 then [] else Selectors(n - 1) + [Selector(n - 1)]
  }

  /** The text before the selectors, by branch. */
  function Head(branch: Branch): seq<Token> {
    match branch
    case SourcesBranch => [Lit(SourcesSelect)]
    case CityBranch => [Lit(CitySelect), Param(City), Lit(CityAs)]
  }

  /** The text after the selectors, by branch. */
  function Tail(branch: Branch): seq<Token> {
    match branch
    case SourcesBranch =>
      [Lit(SourcesFrom), Param(Sources), Lit(SourcesBucket), Param(ResolutionKey), Lit(SourcesTimes), Param(ResolutionKey),
       Lit(Pick), Param(FieldList), Lit(Comma), Param(Op), Lit(SourcesWhere), Param(From),
       Lit(SourcesBeforeCast), Param(Before), Lit(SourcesEnd)]
    case CityBranch =>
      [Lit(CityFrom), Param(ResolutionKey), Lit(CityTimes), Param(ResolutionKey),
       Lit(Pick), Param(FieldList), Lit(Comma), Param(Op), Lit(CityWhere), Param(City),
       Lit(CityFromCond), Param(From), Lit(CityBeforeCast), Param(Before), Lit(CityEnd)]
  }

  /** The query text of a branch for n fields; nothing else goes into it. */
  function QueryTokens(branch: Branch, n: nat): seq<Token> {
    Head(branch) + JoinSelectors(Selectors(n)) + Tail(branch)
  }

  /** The replacements every query starts with. */
  function BaseSubs(p: Params): map<Name, Bind> {
    map[ResolutionKey := BNumber(p.resolution), From := BDate(p.from), Before := BDate(p.before),
        FieldList := BList(p.fields), Op := BText(p.op)]
  }

  /**
   * `subs` after `subs['field' + i] = fields[i]` for every ordinal i: the field
   * entries are added and every other entry is kept.
   */
  function WithFields(subs0: map<Name, Bind>, fields: seq<string>): map<Name, Bind> {
    if fields == [] then subs0
    else
      var n := |fields| - 1;
      WithFields(subs0, fields[..n])[Field(n) := BText(fields[n])]
  }

  /** Field i is bound to `fields[i]`, the entries that are not fields are kept, and nothing else is added. */
  lemma {:induction false} WithFieldsSpec(subs0: map<Name, Bind>, fields: seq<string>)
    ensures forall k :: k in WithFields(subs0, fields) <==> k in subs0 || (k.Field? && k.i < |fields|)
    ensures forall i :: 0 <= i < |fields| ==> WithFields(subs0, fields)[Field(i)] == BText(fields[i])
    ensures forall k :: k in subs0 && !k.Field? ==> WithFields(subs0, fields)[k] == subs0[k]
  {
    if fields != [] {
      var n := |fields| - 1;
      WithFieldsSpec(subs0, fields[..n]);
    }
  }

  /** Which branch `if (sources) ... else if (city) ...` takes; None is the 500 the code keeps for neither. */
  function BranchOf(p: Params): Option<Branch> {
    if p.sources.Some? then Some(SourcesBranch)
    else if Truthy(p.city) then Some(CityBranch)
    else None
  }

  /** The replacements of a branch: the base ones, the fields, and the selection. */
  function BranchSubs(p: Params, branch: Branch): map<Name, Bind>
    requires branch == SourcesBranch ==> p.sources.Some?
    requires branch == CityBranch ==> p.city.Some?
  {
    match branch
    case SourcesBranch => WithFields(BaseSubs(p), p.fields)[Sources := BList(p.sources.value)]
    case CityBranch => WithFields(BaseSubs(p), p.fields)[City := BText(p.city.value)]
  }

  /** The query text and replacements for validated parameters. */
  function BuildQuery(p: Params): (r: Option<SqlQuery>)
    ensures r.Some? <==> BranchOf(p).Some?
    ensures r.Some? ==> r.value.tokens == QueryTokens(BranchOf(p).value, |p.fields|)
  {
    match BranchOf(p)
    case None => None
    case Some(branch) => Some(SqlQuery(QueryTokens(branch, |p.fields|), BranchSubs(p, branch)))
  }

  /** `fieldNames` once n fields have been visited: `:field0` to `:field<n-1>`. */
  function FieldNames(n: nat): (s: seq<string>)
    ensures |s| == n && forall k :: 0 <= k < n ==> s[k] == ":field" + Decimal(k)
  {
    if n == 0 then [] else FieldNames(n - 1) + [":field" + Decimal(n - 1)]
  }

  /**
   * The loop over the requested fields: for each ordinal i it records the
   * replacement name `:field<i>`, the selector for column "i", `fieldMap[i]` and
   * `subs['field<i>']`. Nothing of `subs` is lost or changed except the field entries.
   */
  method MapFields(fields: seq<string>, subs0: map<Name, Bind>)
    returns (fieldNames: seq<string>, fieldSelectors: seq<seq<Token>>, fieldMap: seq<string>, subs: map<Name, Bind>)
    ensures |fieldNames| == |fields| && |fieldSelectors| == |fields|
    ensures forall i :: 0 <= i < |fields| ==> fieldNames[i] == ":field" + Decimal(i)
    ensures fieldSelectors == Selectors(|fields|)
    ensures fieldMap == fields
    ensures subs == WithFields(subs0, fields)
  {
    fieldNames, fieldSelectors, fieldMap, subs := [], [], [], subs0;
    var i := 0;
    while i < |fields|
      invariant 0 <= i <= |fields|
      invariant |fieldNames| == i && |fieldSelectors| == i
      invariant fieldNames == FieldNames(i)
      invariant fieldSelectors == Selectors(i)
      invariant fieldMap == fields[..i]
      invariant subs == WithFields(subs0, fields[..i])
    {
      var name := fields[i];
      fieldNames := fieldNames + [":field" + Decimal(i)];
      fieldSelectors := fieldSelectors + [Selector(i)];
      subs := subs[Field(i) := BText(name)];
      fieldMap := fieldMap + [name];
      assert fields[..i + 1] == fields[..i] + [name];
      assert fields[..i + 1][..i] == fields[..i];
      i := i + 1;
    }
    assert fields[..i] == fields;
  }

  // ---------------------------------------------------------------------------
  // Properties of the query

  /** The replacements a token sequence names. */
  predicate ParamsWithin(tokens: seq<Token>, names: set<Name>) {
    forall k :: 0 <= k < |tokens| && tokens[k].Param? ==> tokens[k].name in names
  }

  lemma ParamsWithinAppend(a: seq<Token>, b: seq<Token>, names: set<Name>)
    requires ParamsWithin(a, names) && ParamsWithin(b, names)
    ensures ParamsWithin(a + b, names)
  {
    forall k | 0 <= k < |a + b| && (a + b)[k].Param?
      ensures (a + b)[k].name in names
    {
      if k >= |a| { assert (a + b)[k] == b[k - |a|]; }
    }
  }

  /** Joining keeps every replacement inside the names its parts use. */
  lemma {:induction false} JoinedParams(ss: seq<seq<Token>>, names: set<Name>)
    requires forall k :: 0 <= k < |ss| ==> ParamsWithin(ss[k], names)
    ensures ParamsWithin(JoinSelectors(ss), names)
  {
    if |ss| > 1 {
      JoinedParams(ss[1..], names);
      ParamsWithinAppend(ss[0], [Lit(Comma)], names);
      ParamsWithinAppend(ss[0] + [Lit(Comma)], JoinSelectors(ss[1..]), names);
    }
  }

  /** The fixed names a branch binds: the five base ones and its selection. */
  function BranchNames(branch: Branch): set<Name> {
    {ResolutionKey, From, Before, FieldList, Op} + (if branch == SourcesBranch then {Sources} else {City})
  }

  lemma FixedTextBound(branch: Branch)
    ensures ParamsWithin(Head(branch), BranchNames(branch))
    ensures ParamsWithin(Tail(branch), BranchNames(branch))
  {
  }

  lemma ParamsWithinWider(tokens: seq<Token>, a: set<Name>, b: set<Name>)
    requires ParamsWithin(tokens, a) && a <= b
    ensures ParamsWithin(tokens, b)
  {
  }

  /** The keys of a branch's replacements: its fixed names and one `field<i>` per field. */
  lemma BranchSubsKeys(p: Params, branch: Branch)
    requires branch == SourcesBranch ==> p.sources.Some?
    requires branch == CityBranch ==> p.city.Some?
    ensures forall k :: k in BranchSubs(p, branch) <==> k in BranchNames(branch) || (k.Field? && k.i < |p.fields|)
  {
    WithFieldsSpec(BaseSubs(p), p.fields);
  }

  /**
   * No replacement is left without a value: every `:name` in the text is a key of
   * `subs`, so sequelize never rejects the query for a missing replacement.
   */
  lemma ReplacementsBound(p: Params)
    requires BuildQuery(p).Some?
    ensures ParamsWithin(BuildQuery(p).value.tokens, BuildQuery(p).value.subs.Keys)
  {
    var branch := BranchOf(p).value;
    var n := |p.fields|;
    var keys := BranchSubs(p, branch).Keys;
    BranchSubsKeys(p, branch);
    forall k | 0 <= k < n
      ensures ParamsWithin(Selectors(n)[k], keys)
    {
      assert Field(k) in keys;
    }
    JoinedParams(Selectors(n), keys);
    FixedTextBound(branch);
    ParamsWithinWider(Head(branch), BranchNames(branch), keys);
    ParamsWithinWider(Tail(branch), BranchNames(branch), keys);
    ParamsWithinAppend(Head(branch), JoinSelectors(Selectors(n)), keys);
    ParamsWithinAppend(Head(branch) + JoinSelectors(Selectors(n)), Tail(branch), keys);
  }

  /**
   * Injection safety: the SQL text is fixed by the branch and the number of fields.
   * Two requests with the same branch and field count produce the same text, whatever
   * their field names, source ids, city, operator, resolution and window.
   */
  lemma TextIndependentOfValues(p: Params, p': Params)
    requires BuildQuery(p).Some? && BranchOf(p') == BranchOf(p) && |p'.fields| == |p.fields|
    ensures BuildQuery(p').Some?
    ensures BuildQuery(p').value.tokens == BuildQuery(p).value.tokens
  {
  }

  /**
   * The user's values reach the database only as replacements: field i as
   * `subs['field<i>']`, the source ids as `subs.sources`, the city as `subs.city`,
   * beside the resolution, window, field list and operator. With `BranchSubsKeys`
   * this is everything `subs` holds.
   */
  lemma BranchSubsFields(p: Params, branch: Branch)
    requires branch == SourcesBranch ==> p.sources.Some?
    requires branch == CityBranch ==> p.city.Some?
    ensures forall i :: 0 <= i < |p.fields| ==>
              Field(i) in BranchSubs(p, branch) && BranchSubs(p, branch)[Field(i)] == BText(p.fields[i])
  {
    WithFieldsSpec(BaseSubs(p), p.fields);
  }

  /** The fixed replacements: resolution, window, field list, operator and the selection. */
  lemma BranchSubsValues(p: Params, branch: Branch)
    requires branch == SourcesBranch ==> p.sources.Some?
    requires branch == CityBranch ==> p.city.Some?
    ensures BranchNames(branch) <= BranchSubs(p, branch).Keys
    ensures BranchSubs(p, branch)[ResolutionKey] == BNumber(p.resolution)
    ensures BranchSubs(p, branch)[From] == BDate(p.from) && BranchSubs(p, branch)[Before] == BDate(p.before)
    ensures BranchSubs(p, branch)[FieldList] == BList(p.fields) && BranchSubs(p, branch)[Op] == BText(p.op)
    ensures branch == SourcesBranch ==> BranchSubs(p, branch)[Sources] == BList(p.sources.value)
    ensures branch == CityBranch ==> BranchSubs(p, branch)[City] == BText(p.city.value)
  {
    WithFieldsSpec(BaseSubs(p), p.fields);
  }

  /** The query carries the replacements of the branch it takes. */
  lemma QuerySubs(p: Params)
    requires BuildQuery(p).Some?
    ensures BuildQuery(p).value.subs == BranchSubs(p, BranchOf(p).value)
  {
  }

  /**
   * `if (sources)` is tested first: the sources branch is taken whenever
   * `each.sources` was given, even beside `over.city`; the city branch only without it.
   */
  lemma SourcesBranchWins(req: Request, validRange: RangeCheck)
    requires Validate(req, validRange).Success?
    ensures BranchOf(Validate(req, validRange).value) ==
            Some(if Truthy(req.sources) then SourcesBranch else CityBranch)
  {
    ValidatedParams(req, validRange);
  }
}
