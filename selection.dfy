/** Data model and specification of the resource selection filter of the
    Serverless plugin `serverless-plugin-select-resource`.

    A resource definition may carry a `regions` and a `stages` allow-list.
    For a deployment to a given region and stage, a resource is kept exactly
    when each of its non-empty lists admits the requested value (an undefined
    requested value admits everything); every kept resource loses its
    `regions` and `stages` fields, every other resource is deleted. */
module Selection {

  datatype Option<T> = None | Some(value: T)

  /** The value a resource definition holds under `regions` or `stages`:
      nothing, an array of strings, or any other (non-array) value, kept
      only in a serialised form. */
  datatype Field = Absent | List(items: seq<string>) | Other(raw: string)

  /** One entry of `service.resources.Resources`. `rest` stands for all the
      other properties (Type, Properties, DependsOn, ...), name to
      serialised value; the filter never looks at them. */
  datatype Resource = Resource(regions: Field, stages: Field, rest: map<string, string>)

  /** The CLI options the filter reads. */
  datatype Options = Options(region: Option<string>, stage: Option<string>, noDeploy: bool)

  /** `Array.prototype.indexOf` with strict equality: the first position of
      `x` in `s`, or -1 when `x` does not occur. */
  function IndexOf(s: seq<string>, x: string): (r: int)
    ensures -1 <= r < |s|
    ensures r == -1 <==> x !in s
    ensures 0 <= r ==> s[r] == x && x !in s[..r]
  {
    if s == [] then -1
    else if s[0] == x then 0
    else
      var j := IndexOf(s[1..], x);
      if j == -1 then -1 else j + 1
  }

  /** `Array.isArray(f) && f.length ? f : false`: a field restricts only when
      it is a non-empty array. */
  function Restriction(f: Field): (r: Option<seq<string>>)
    ensures r.Some? <==> f.List? && f.items != []
    ensures r.Some? ==> r.value == f.items
  {
    match f
    case List(items) => if |items| > 0 then Some(items) else None
    case _ => None
  }

  /** Does field `f` let a resource through when the requested value of its
      dimension is `wanted`? */
  predicate Admits(f: Field, wanted: Option<string>)
    ensures Admits(f, wanted) <==>
              !(Restriction(f).Some? && wanted.Some? && IndexOf(Restriction(f).value, wanted.value) == -1)
  {
    match Restriction(f)
    case None => true
    case Some(allowed) => wanted.None? || wanted.value in allowed
  }

  /** The keep/drop rule: both the region check and the stage check pass. */
  predicate Keep(r: Resource, opts: Options)
    ensures !Keep(r, opts) <==>
              || (Restriction(r.regions).Some? && opts.region.Some?
                  && IndexOf(Restriction(r.regions).value, opts.region.value) == -1)
              || (Restriction(r.stages).Some? && opts.stage.Some?
                  && IndexOf(Restriction(r.stages).value, opts.stage.value) == -1)
  {
    Admits(r.regions, opts.region) && Admits(r.stages, opts.stage)
  }

  /** A surviving resource: `regions` and `stages` set to undefined. */
  function Cleared(r: Resource): (c: Resource)
    ensures c.regions == Absent && c.stages == Absent
    ensures c.rest == r.rest
  {
    r.(regions := Absent, stages := Absent)
  }

  /** The effect of selecting the single resource `name` on the resource
      map: only the entry for `name` changes. */
  function SelectOne(m: map<string, Resource>, name: string, opts: Options): (r: map<string, Resource>)
    ensures forall k :: k != name ==> (k in r <==> k in m)
    ensures forall k :: k != name && k in r ==> r[k] == m[k]
    ensures name in r <==> name in m && Keep(m[name], opts)
    ensures name in r ==> r[name] == Cleared(m[name])
  {
    if name !in m then m
    else if Keep(m[name], opts) then m[name := Cleared(m[name])]
    else m - {name}
  }

  /** Selecting the resources listed in `names`, one after the other. */
  function SelectKeys(m: map<string, Resource>, names: seq<string>, opts: Options): (r: map<string, Resource>)
    ensures r.Keys <= m.Keys
  {
    if names == [] then m
    else SelectOne(SelectKeys(m, names[..|names| - 1], opts), names[|names| - 1], opts)
  }

  /** The resource map once the names in `done` have been selected and the
      others not yet looked at. */
  ghost function SelectedOn(m: map<string, Resource>, done: set<string>, opts: Options): map<string, Resource>
  {
    map k | k in m && (k in done ==> Keep(m[k], opts)) :: if k in done then Cleared(m[k]) else m[k]
  }

  /** The resource map after a full selection pass. */
  ghost function Selected(m: map<string, Resource>, opts: Options): (r: map<string, Resource>)
    ensures forall k :: k in r <==> k in m && Keep(m[k], opts)
    ensures forall k :: k in r ==> r[k].regions == Absent && r[k].stages == Absent && r[k].rest == m[k].rest
  {
    map k | k in m && Keep(m[k], opts) :: Cleared(m[k])
  }

  /** An absent, non-array or empty `regions`/`stages` value never causes a
      deletion, whatever is requested. */
  lemma UnrestrictedAdmits(f: Field, wanted: Option<string>)
    requires f.Absent? || f.Other? || f == List([])
    ensures Admits(f, wanted)
  {
  }

  /** An undefined requested region or stage never filters on that
      dimension. */
  lemma UndefinedAdmits(f: Field)
    ensures Admits(f, None)
  {
  }

  /** A non-empty list rejects exactly when the requested value is defined
      and not one of its elements. */
  lemma {:induction false} RestrictedRejects(f: Field, wanted: Option<string>)
    requires f.List? && f.items != []
    ensures !Admits(f, wanted) <==> wanted.Some? && IndexOf(f.items, wanted.value) == -1
  {
  }

  /** A cleared resource is kept by every context: the cleared fields count
      as unrestricted. */
  lemma ClearedKept(r: Resource, opts: Options)
    ensures Keep(Cleared(r), opts)
  {

  }

  /** Selecting a resource a second time changes nothing. */
  lemma SelectOneIdempotent(m: map<string, Resource>, name: string, opts: Options)
    ensures SelectOne(SelectOne(m, name, opts), name, opts) == SelectOne(m, name, opts)
  {

  }

  /** Selecting one more name extends the set of selected names. */
  lemma SelectOneExtends(m: map<string, Resource>, done: set<string>, name: string, opts: Options)
    ensures SelectOne(SelectedOn(m, done, opts), name, opts) == SelectedOn(m, done + {name}, opts)
  {

  }

  /** Selecting the names of any list one by one, in any order and with any
      repetitions, yields the map in which exactly those names are
      selected. */
  lemma {:induction false} SelectKeysSelectsListed(m: map<string, Resource>, names: seq<string>, opts: Options)
    ensures SelectKeys(m, names, opts) == SelectedOn(m, (set k | k in names), opts)
  {
    if names == [] {
      assert SelectedOn(m, {}, opts) == m;
    } else {
      var init, last := names[..|names| - 1], names[|names| - 1];
      SelectKeysSelectsListed(m, init, opts);
      SelectOneExtends(m, (set k | k in init), last, opts);
      assert (set k | k in names) == (set k | k in init) + {last} by {
        assert names == init + [last];
      }
    }
  }

  /** A name that is not listed keeps its entry through the whole run of
      selection steps. */
  lemma {:induction false} SelectKeysUntouched(m: map<string, Resource>, names: seq<string>, name: string, opts: Options)
    requires name in m && name !in names
    ensures name in SelectKeys(m, names, opts) && SelectKeys(m, names, opts)[name] == m[name]
  {
    if names != [] {
      SelectKeysUntouched(m, names[..|names| - 1], name, opts);
    }
  }

  /** One more step of a run over a list of distinct names: the next name
      still holds its original entry, and the run grows by one
      `SelectOne`. */
  lemma SelectKeysStep(m: map<string, Resource>, names: seq<string>, i: nat, opts: Options)
    requires i < |names| && names[i] in m
    requires forall j :: 0 <= j < i ==> names[j] != names[i]
    ensures names[i] in SelectKeys(m, names[..i], opts)
    ensures SelectKeys(m, names[..i], opts)[names[i]] == m[names[i]]
    ensures SelectKeys(m, names[..i + 1], opts) == SelectOne(SelectKeys(m, names[..i], opts), names[i], opts)
    ensures (forall j :: 0 <= j < |names| ==> names[j] in m) ==>
              Resolutions(m, names[..i + 1], opts) == Resolutions(m, names[..i], opts) + [Settle(m[names[i]], opts)]
  {
    assert names[i] !in names[..i];
    SelectKeysUntouched(m, names[..i], names[i], opts);
    assert names[..i + 1][..i] == names[..i];
  }

  /** What the promise of one selection step resolves to: the resource
      object, which the step has cleared when the resource survived. */
  function Settle(r: Resource, opts: Options): (s: Resource)
    ensures Keep(r, opts) ==> s.regions == Absent && s.stages == Absent
    ensures !Keep(r, opts) ==> s == r
    ensures s.rest == r.rest
  {
    if Keep(r, opts) then Cleared(r) else r
  }

  /** What `Promise.all` over the steps for `names` resolves to: for each
      name, in order, the value its step resolves with. */
  function Resolutions(m: map<string, Resource>, names: seq<string>, opts: Options): (vs: seq<Resource>)
    requires forall j :: 0 <= j < |names| ==> names[j] in m
    ensures |vs| == |names|
    ensures forall j :: 0 <= j < |names| ==> vs[j] == Settle(m[names[j]], opts)
  {
    if names == [] then []
    else Resolutions(m, names[..|names| - 1], opts) + [Settle(m[names[|names| - 1]], opts)]
  }

  /** Visiting every key once (a snapshot of `Object.keys`) performs the
      full selection pass, whatever the order of the snapshot. */
  lemma {:induction false} SelectKeysComplete(m: map<string, Resource>, names: seq<string>, opts: Options)
    requires forall k :: k in names <==> k in m
    ensures SelectKeys(m, names, opts) == Selected(m, opts)
  {
    SelectKeysSelectsListed(m, names, opts);
    assert (set k | k in names) == m.Keys;
  }

  /** A second pass with the same context deletes nothing more and leaves
      every survivor as it was. */
  lemma SelectedIdempotent(m: map<string, Resource>, opts: Options)
    ensures Selected(Selected(m, opts), opts) == Selected(m, opts)
  {

  }

  /** With neither a region nor a stage requested, no resource is removed. */
  lemma UndefinedContextKeepsAll(m: map<string, Resource>, opts: Options)
    requires opts.region.None? && opts.stage.None?
    ensures Selected(m, opts).Keys == m.Keys
  {

  }

  /** Two resources restricted to different regions, deployed to one of
      them: only the matching one survives, stripped of its `regions`. */
  lemma RegionScenario()
    ensures
      var a := Resource(List(["us-east-1"]), Absent, map[]);
      var b := Resource(List(["eu-west-1"]), Absent, map[]);
      var opts := Options(Some("us-east-1"), None, false);
      Selected(map["A" := a, "B" := b], opts) == map["A" := Resource(Absent, Absent, map[])]
  {

  }

  /** A resource allowed in the requested stage but not in the requested
      region is removed. */
  lemma RegionAndStageScenario()
    ensures
      var a := Resource(List(["us-east-1"]), List(["prod"]), map[]);
      var opts := Options(Some("eu-west-1"), Some("prod"), false);
      Selected(map["A" := a], opts) == map[]
  {

  }
}
