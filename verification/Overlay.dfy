/** `overlay.py`: rendering a profile as a reduction of a signed package, and the independent check
    of a rendering against its base. Packages are the normalized form the source works on. */
module Overlay {
  import opened Common
  import opened Json

  /** A ceiling field of a budget: no such key, null, or a number. */
  datatype Amount = Absent | Null | Number(value: real)

  const CEILING_FIELDS: seq<string> :=
    ["cpu_cores", "memory_mb", "storage_mb", "max_connections", "max_duration_seconds", "bandwidth_kbps"]

  /** One entry for each of CEILING_FIELDS, in that order. */
  type Amounts = s: seq<Amount> | |s| == 6 witness [Null, Null, Null, Null, Null, Null]
  type Ceiling = s: seq<Option<real>> | |s| == 6 witness [None, None, None, None, None, None]

  datatype Budget = Budget(amounts: Amounts, rest: Fields)
  datatype Surface = Surface(id: string, protocol: string, port: int, service: string, rest: Fields)
  datatype Component = Component(id: string, image: string, required: bool, surfaces: seq<Surface>, privileged: bool,
                                 hostNetwork: bool, readOnlyRootfs: bool, rest: Fields)
  datatype Credential = Credential(id: string, rest: Fields)
  datatype Tier = Tier(id: string, includes: seq<string>, minimum: Budget, rest: Fields)
  datatype Package = Package(id: string, digest: string, components: seq<Component>, credentials: seq<Credential>,
                             maximum: Budget, tiers: seq<Tier>, runtimeMinimum: Budget, runtimeRest: Fields,
                             safety: Tree, rest: Fields)

  datatype Evidence = Evidence(events: int, bytes: int, retentionSeconds: int)
  datatype Profile = Profile(id: string, baseId: string, baseDigest: string, components: seq<string>,
                             surfaces: seq<string>, credentials: seq<string>, ceiling: Ceiling, evidence: Evidence)

  datatype Selection = Selection(components: set<string>, surfaces: set<string>, credentials: set<string>)
  datatype Rendered = Rendered(profileId: string, baseId: string, baseDigest: string, selection: Option<Selection>,
                               evidence: Evidence, manifest: Package)

  datatype Refusal =
    | InvalidPackage | WrongPackage | WrongDigest | UnknownComponents | NoComponents | DropsRequired
    | UnknownSurfaces | UnknownCredentials | NoTierFits | BelowRuntimeMinimum | NotAReduction

  /** The package schema's validation, and the content digest (None where the schema refuses). */
  datatype Schema = Schema(valid: Package -> bool, digest: Package -> Option<string>)

  function Elements<T>(s: seq<T>): set<T>
  {
    set i | 0 <= i < |s| :: s[i]
  }

  function ComponentIds(cs: seq<Component>): set<string>
  {
    set i | 0 <= i < |cs| :: cs[i].id
  }

  function RequiredIds(cs: seq<Component>): set<string>
  {
    set i | 0 <= i < |cs| && cs[i].required :: cs[i].id
  }

  function SurfaceIds(cs: seq<Component>): set<string>
  {
    set i, j | 0 <= i < |cs| && 0 <= j < |cs[i].surfaces| :: cs[i].surfaces[j].id
  }

  function CredentialIds(cs: seq<Credential>): set<string>
  {
    set i | 0 <= i < |cs| :: cs[i].id
  }

  // ----- ceilings

  function Smaller(a: real, b: real): real
  {
    if a <= b then a else b
  }

  function Tightened(mine: Option<real>, theirs: Amount): Amount
  {
    if mine.None? then theirs
    else if theirs.Number? then Number(Smaller(mine.value, theirs.value))
    else Number(mine.value)
  }

  function Applied(c: Ceiling, base: Budget): Budget
  {
    Budget(seq(6, i requires 0 <= i < 6 => Tightened(c[i], base.amounts[i])), base.rest)
  }

  /** `ResourceCeiling.applied_to`. */
  method AppliedTo(c: Ceiling, base: Budget) returns (out: Budget)
    ensures out == Applied(c, base)
  {
    out := base;
    for i := 0 to 6
      invariant out.rest == base.rest
      invariant forall j :: 0 <= j < 6 ==> out.amounts[j] == if j < i then Tightened(c[j], base.amounts[j]) else base.amounts[j]
    {
      if c[i].None? {
        continue;
      }
      var amount := if base.amounts[i].Number? then Number(Smaller(c[i].value, base.amounts[i].value)) else Number(c[i].value);
      out := out.(amounts := out.amounts[i := amount]);
    }
  }

  ghost predicate FitsUnder(minimum: Budget, cap: Budget)
  {
    forall i :: 0 <= i < 6 && minimum.amounts[i].Number? && cap.amounts[i].Number? ==>
                  minimum.amounts[i].value <= cap.amounts[i].value
  }

  /** `_fits`. */
  method Fits(minimum: Budget, cap: Budget) returns (r: bool)
    ensures r <==> FitsUnder(minimum, cap)
  {
    for i := 0 to 6
      invariant forall j :: 0 <= j < i && minimum.amounts[j].Number? && cap.amounts[j].Number? ==>
                              minimum.amounts[j].value <= cap.amounts[j].value
    {
      var want, limit := minimum.amounts[i], cap.amounts[i];
      if !want.Number? || !limit.Number? {
        continue;
      }
      if want.value > limit.value {
        return false;
      }
    }
    return true;
  }

  // ----- what is kept

  function KeepSurfaces(ss: seq<Surface>, keep: set<string>): (r: seq<Surface>)
    ensures forall s :: s in r <==> s in ss && s.id in keep
  {
    if ss == [] then []
    else (if ss[0].id in keep then [ss[0]] else []) + KeepSurfaces(ss[1..], keep)
  }

  function Trim(c: Component, surfaces: set<string>): Component
  {
    c.(surfaces := KeepSurfaces(c.surfaces, surfaces))
  }

  function KeepComponents(cs: seq<Component>, keep: set<string>, surfaces: set<string>): seq<Component>
  {
    if cs == [] then []
    else (if cs[0].id in keep then [Trim(cs[0], surfaces)] else []) + KeepComponents(cs[1..], keep, surfaces)
  }

  lemma {:induction false} KeptIffSelected(cs: seq<Component>, keep: set<string>, surfaces: set<string>, c: Component)
    ensures c in KeepComponents(cs, keep, surfaces) <==> exists j :: 0 <= j < |cs| && cs[j].id in keep && c == Trim(cs[j], surfaces)
  {
    if cs != [] {
      KeptIffSelected(cs[1..], keep, surfaces, c);
      if j :| 0 <= j < |cs[1..]| && cs[1..][j].id in keep && c == Trim(cs[1..][j], surfaces) {
        assert cs[j + 1] == cs[1..][j];
      }
      if j :| 0 <= j < |cs| && cs[j].id in keep && c == Trim(cs[j], surfaces) {
        assert j > 0 ==> cs[1..][j - 1] == cs[j];
      }
    }
  }

  function KeepCredentials(cs: seq<Credential>, keep: set<string>): (r: seq<Credential>)
    ensures forall c :: c in r <==> c in cs && c.id in keep
  {
    if cs == [] then []
    else (if cs[0].id in keep then [cs[0]] else []) + KeepCredentials(cs[1..], keep)
  }

  ghost predicate Survives(t: Tier, keep: set<string>, cap: Budget)
  {
    Elements(t.includes) <= keep && FitsUnder(t.minimum, cap)
  }

  ghost function Surviving(ts: seq<Tier>, keep: set<string>, cap: Budget): (r: seq<Tier>)
    ensures forall t :: t in r <==> t in ts && Survives(t, keep, cap)
  {
    if ts == [] then []
    else Surviving(ts[..|ts| - 1], keep, cap) + if Survives(ts[|ts| - 1], keep, cap) then [ts[|ts| - 1]] else []
  }

  method SurvivingTiers(ts: seq<Tier>, keep: set<string>, cap: Budget) returns (surviving: seq<Tier>)
    ensures surviving == Surviving(ts, keep, cap)
  {
    surviving := [];
    for k := 0 to |ts|
      invariant surviving == Surviving(ts[..k], keep, cap)
    {
      assert ts[..k + 1][..k] == ts[..k];
      if !(Elements(ts[k].includes) <= keep) {
        continue;
      }
      var fits := Fits(ts[k].minimum, cap);
      if !fits {
        continue;
      }
      surviving := surviving + [ts[k]];
    }
    assert ts[..|ts|] == ts;
  }

  // ----- rendering

  /** The package after selecting and tightening, before its digest is recomputed. */
  ghost function Selected(base: Package, o: Profile): Package
  {
    var keep := Elements(o.components);
    var cap := Applied(o.ceiling, base.maximum);
    base.(components := KeepComponents(base.components, keep, Elements(o.surfaces)),
          credentials := KeepCredentials(base.credentials, Elements(o.credentials)),
          maximum := cap, tiers := Surviving(base.tiers, keep, cap))
  }

  function RenderingOf(o: Profile, manifest: Package): Rendered
  {
    Rendered(o.id, o.baseId, o.baseDigest,
             Some(Selection(Elements(o.components), Elements(o.surfaces), Elements(o.credentials))), o.evidence, manifest)
  }

  /** Everything `render_profile` does before the final check, in its order. */
  ghost function Reduce(base: Package, o: Profile, schema: Schema): Result<Rendered, Refusal>
  {
    var keep := Elements(o.components);
    var payload := Selected(base, o);
    if !schema.valid(base) then Err(InvalidPackage)
    else if base.id != o.baseId then Err(WrongPackage)
    else if base.digest != o.baseDigest then Err(WrongDigest)
    else if !(keep <= ComponentIds(base.components)) then Err(UnknownComponents)
    else if o.components == [] then Err(NoComponents)
    else if !(RequiredIds(base.components) <= keep) then Err(DropsRequired)
    else if !(Elements(o.surfaces) <= SurfaceIds(base.components)) then Err(UnknownSurfaces)
    else if !(Elements(o.credentials) <= CredentialIds(base.credentials)) then Err(UnknownCredentials)
    else if payload.tiers == [] then Err(NoTierFits)
    else if !FitsUnder(base.runtimeMinimum, payload.maximum) then Err(BelowRuntimeMinimum)
    else if schema.digest(payload).None? then Err(InvalidPackage)
    else Ok(RenderingOf(o, payload.(digest := schema.digest(payload).value)))
  }

  ghost function Render(base: Package, o: Profile, schema: Schema): Result<Rendered, Refusal>
  {
    var r := Reduce(base, o, schema);
    if r.Ok? && !IsReduction(base, r.value, schema) then Err(NotAReduction) else r
  }

  /** `render_profile`. */
  method RenderProfile(base: Package, o: Profile, schema: Schema) returns (r: Result<Rendered, Refusal>)
    ensures r == Render(base, o, schema)
  {
    if !schema.valid(base) {
      return Err(InvalidPackage);
    }
    if base.id != o.baseId {
      return Err(WrongPackage);
    }
    if base.digest != o.baseDigest {
      return Err(WrongDigest);
    }
    var keep := Elements(o.components);
    if !(keep <= ComponentIds(base.components)) {
      return Err(UnknownComponents);
    }
    if o.components == [] {
      return Err(NoComponents);
    }
    if !(RequiredIds(base.components) <= keep) {
      return Err(DropsRequired);
    }
    if !(Elements(o.surfaces) <= SurfaceIds(base.components)) {
      return Err(UnknownSurfaces);
    }
    if !(Elements(o.credentials) <= CredentialIds(base.credentials)) {
      return Err(UnknownCredentials);
    }
    var payload := base.(components := KeepComponents(base.components, keep, Elements(o.surfaces)),
                         credentials := KeepCredentials(base.credentials, Elements(o.credentials)));
    var maximum := AppliedTo(o.ceiling, payload.maximum);
    payload := payload.(maximum := maximum);
    var surviving := SurvivingTiers(payload.tiers, keep, payload.maximum);
    if surviving == [] {
      return Err(NoTierFits);
    }
    payload := payload.(tiers := surviving);
    var fits := Fits(payload.runtimeMinimum, payload.maximum);
    if !fits {
      return Err(BelowRuntimeMinimum);
    }
    if schema.digest(payload).None? {
      return Err(InvalidPackage);
    }
    payload := payload.(digest := schema.digest(payload).value);
    var rendered := RenderingOf(o, payload);
    var ok := AssertIsReduction(base, rendered, schema);
    return if ok then Ok(rendered) else Err(NotAReduction);
  }

  // ----- the independent check

  type Port = (string, int, string)

  function Ports(ss: seq<Surface>): set<Port>
  {
    set i | 0 <= i < |ss| :: (ss[i].protocol, ss[i].port, ss[i].service)
  }

  /** The last component of that id: what a dict keyed by id keeps. */
  function FindComponent(cs: seq<Component>, id: string): (r: Option<Component>)
    ensures r.Some? ==> r.value in cs && r.value.id == id
    ensures r.None? <==> id !in ComponentIds(cs)
  {
    if cs == [] then None
    else if cs[|cs| - 1].id == id then Some(cs[|cs| - 1])
    else FindComponent(cs[..|cs| - 1], id)
  }

  function FindTier(ts: seq<Tier>, id: string): (r: Option<Tier>)
    ensures r.Some? ==> r.value in ts && r.value.id == id
    ensures r.None? ==> forall i :: 0 <= i < |ts| ==> ts[i].id != id
  {
    if ts == [] then None
    else if ts[|ts| - 1].id == id then Some(ts[|ts| - 1])
    else FindTier(ts[..|ts| - 1], id)
  }

  predicate ComponentReduces(c: Component, base: seq<Component>)
  {
    var o := FindComponent(base, c.id);
    && o.Some? && c.image == o.value.image && Ports(c.surfaces) <= Ports(o.value.surfaces)
    && !c.privileged && !c.hostNetwork && (o.value.readOnlyRootfs ==> c.readOnlyRootfs)
  }

  predicate MatchesSelection(m: Package, s: Selection)
  {
    && ComponentIds(m.components) == s.components
    && SurfaceIds(m.components) <= s.surfaces
    && CredentialIds(m.credentials) <= s.credentials
    && forall i :: 0 <= i < |m.tiers| ==> Elements(m.tiers[i].includes) <= s.components
  }

  predicate TierReduces(t: Tier, base: seq<Tier>)
  {
    var o := FindTier(base, t.id);
    o.Some? && Elements(t.includes) <= Elements(o.value.includes)
  }

  ghost predicate IsReduction(base: Package, r: Rendered, schema: Schema)
  {
    var m := r.manifest;
    && schema.valid(base)
    && (forall i :: 0 <= i < |m.components| ==> ComponentReduces(m.components[i], base.components))
    && (r.selection.Some? ==> MatchesSelection(m, r.selection.value))
    && CredentialIds(m.credentials) <= CredentialIds(base.credentials)
    && FitsUnder(m.maximum, base.maximum)
    && (forall i :: 0 <= i < |m.tiers| ==> TierReduces(m.tiers[i], base.tiers))
    && m.safety == base.safety
    && Draws(Dump(m), Dump(base), {m.digest})
  }

  /** `assert_is_reduction`: false where the source raises. */
  method AssertIsReduction(base: Package, r: Rendered, schema: Schema) returns (ok: bool)
    ensures ok <==> IsReduction(base, r, schema)
  {
    var m := r.manifest;
    if !schema.valid(base) {
      return false;
    }
    for i := 0 to |m.components|
      invariant forall j :: 0 <= j < i ==> ComponentReduces(m.components[j], base.components)
    {
      if !ComponentReduces(m.components[i], base.components) {
        return false;
      }
    }
    if r.selection.Some? && !MatchesSelection(m, r.selection.value) {
      return false;
    }
    if !(CredentialIds(m.credentials) <= CredentialIds(base.credentials)) {
      return false;
    }
    var fits := Fits(m.maximum, base.maximum);
    if !fits {
      return false;
    }
    for i := 0 to |m.tiers|
      invariant forall j :: 0 <= j < i ==> TierReduces(m.tiers[j], base.tiers)
    {
      if !TierReduces(m.tiers[i], base.tiers) {
        return false;
      }
    }
    if m.safety != base.safety {
      return false;
    }
    var known := CollectStrings(Dump(base), {});
    var found := CollectStrings(Dump(m), {});
    return found - (known + {m.digest}) == {};
  }

  // ----- the tree a package is dumped to

  function DumpAmounts(amounts: Amounts, n: nat): Fields
    requires n <= 6
  {
    if n == 0 then []
    else DumpAmounts(amounts, n - 1) + if amounts[n - 1].Absent? then [] else [(CEILING_FIELDS[n - 1], Other)]
  }

  function DumpBudget(b: Budget): Tree
  {
    Dict(DumpAmounts(b.amounts, 6) + b.rest)
  }

  function DumpSurface(s: Surface): Tree
  {
    Dict([("surface_id", Text(s.id)), ("protocol", Text(s.protocol)), ("port", Other), ("service", Text(s.service))] + s.rest)
  }

  function DumpComponent(c: Component): Tree
  {
    Dict([("component_id", Text(c.id)), ("image", Text(c.image)), ("required", Other),
          ("surfaces", DumpAll(c.surfaces, DumpSurface)),
          ("privileged", Other), ("host_network", Other), ("read_only_rootfs", Other)] + c.rest)
  }

  function DumpCredential(c: Credential): Tree
  {
    Dict([("credential_id", Text(c.id))] + c.rest)
  }

  function DumpTier(t: Tier): Tree
  {
    Dict([("tier_id", Text(t.id)),
          ("include_components", DumpAll(t.includes, id => Text(id))),
          ("minimum", DumpBudget(t.minimum))] + t.rest)
  }

  function Dump(p: Package): Tree
  {
    Dict([("package_id", Text(p.id)), ("package_digest", Text(p.digest)),
          ("components", DumpAll(p.components, DumpComponent)), ("credentials", DumpAll(p.credentials, DumpCredential)),
          ("maximum_budget", DumpBudget(p.maximum)), ("deployment_tiers", DumpAll(p.tiers, DumpTier)),
          ("runtime_requirements", Dict([("minimum", DumpBudget(p.runtimeMinimum))] + p.runtimeRest)),
          ("safety", p.safety)] + p.rest)
  }
}
