/** Rendering and checking spelled out member by member: which profiles are rendered, what the manifest
    then holds, which refusal stands for what, and what the check accepts of any manifest. */
module OverlayFacts {
  import opened Common
  import opened Json
  import opened Overlay
  import opened OverlayReduction

  // ----- the checks of the renderer, in its order

  ghost predicate ComponentsKnown(base: Package, o: Profile)
  {
    forall i :: 0 <= i < |o.components| ==> ComponentIn(o.components[i], base.components)
  }

  ghost predicate ComponentIn(id: string, cs: seq<Component>)
  {
    exists j :: 0 <= j < |cs| && cs[j].id == id
  }

  ghost predicate RequiredKept(base: Package, o: Profile)
  {
    forall j :: 0 <= j < |base.components| && base.components[j].required ==> base.components[j].id in o.components
  }

  ghost predicate SurfacesKnown(base: Package, o: Profile)
  {
    forall i :: 0 <= i < |o.surfaces| ==> SurfaceIn(o.surfaces[i], base.components)
  }

  ghost predicate SurfaceIn(id: string, cs: seq<Component>)
  {
    exists j, k :: 0 <= j < |cs| && 0 <= k < |cs[j].surfaces| && cs[j].surfaces[k].id == id
  }

  ghost predicate CredentialsKnown(base: Package, o: Profile)
  {
    forall i :: 0 <= i < |o.credentials| ==> CredentialIn(o.credentials[i], base.credentials)
  }

  ghost predicate CredentialIn(id: string, cs: seq<Credential>)
  {
    exists j :: 0 <= j < |cs| && cs[j].id == id
  }

  /** No stated minimum is above the base's budget or the profile's ceiling. */
  ghost predicate UnderBoth(minimum: Budget, base: Budget, ceiling: Ceiling)
  {
    forall i :: 0 <= i < 6 && minimum.amounts[i].Number? ==>
      && (base.amounts[i].Number? ==> minimum.amounts[i].value <= base.amounts[i].value)
      && (ceiling[i].Some? ==> minimum.amounts[i].value <= ceiling[i].value)
  }

  /** All its components are kept and its minimum still fits. */
  ghost predicate TierStays(base: Package, o: Profile, t: Tier)
  {
    (forall i :: 0 <= i < |t.includes| ==> t.includes[i] in o.components) && UnderBoth(t.minimum, base.maximum, o.ceiling)
  }

  ghost predicate SomeTierStays(base: Package, o: Profile)
  {
    exists j :: 0 <= j < |base.tiers| && TierStays(base, o, base.tiers[j])
  }

  /** How many of the renderer's ten checks pass in a row; 10 is all of them. */
  ghost function ChecksPassed(base: Package, o: Profile, schema: Schema): nat
  {
    if !schema.valid(base) then 0
    else if base.id != o.baseId then 1
    else if base.digest != o.baseDigest then 2
    else if !ComponentsKnown(base, o) then 3
    else if o.components == [] then 4
    else if !RequiredKept(base, o) then 5
    else if !SurfacesKnown(base, o) then 6
    else if !CredentialsKnown(base, o) then 7
    else if !SomeTierStays(base, o) then 8
    else if !UnderBoth(base.runtimeMinimum, base.maximum, o.ceiling) then 9
    else 10
  }

  lemma UnderBothIff(minimum: Budget, c: Ceiling, base: Budget)
    ensures FitsUnder(minimum, Applied(c, base)) <==> UnderBoth(minimum, base, c)
  {
    AppliedIsTheMeet(minimum, c, base);
  }

  lemma SurvivesIff(base: Package, o: Profile, t: Tier)
    ensures Survives(t, Elements(o.components), Applied(o.ceiling, base.maximum)) <==> TierStays(base, o, t)
  {
    hide FitsUnder;
    hide UnderBoth;
    UnderBothIff(t.minimum, o.ceiling, base.maximum);
    assert forall i :: 0 <= i < |o.components| ==> o.components[i] in Elements(o.components);
    assert forall i :: 0 <= i < |t.includes| ==> t.includes[i] in Elements(t.includes);
  }

  lemma SomeTierStaysIff(base: Package, o: Profile)
    ensures Selected(base, o).tiers != [] <==> SomeTierStays(base, o)
  {
    hide Survives;
    hide TierStays;
    hide Surviving;
    var kept := Selected(base, o).tiers;
    forall t: Tier
      ensures Survives(t, Elements(o.components), Applied(o.ceiling, base.maximum)) <==> TierStays(base, o, t)
    {
      SurvivesIff(base, o, t);
    }
    if j :| 0 <= j < |base.tiers| && TierStays(base, o, base.tiers[j]) {
      assert base.tiers[j] in kept;
    }
    assert kept != [] ==> kept[0] in kept;
  }

  lemma SetsIff(base: Package, o: Profile)
    ensures Elements(o.components) <= ComponentIds(base.components) <==> ComponentsKnown(base, o)
    ensures RequiredIds(base.components) <= Elements(o.components) <==> RequiredKept(base, o)
    ensures Elements(o.surfaces) <= SurfaceIds(base.components) <==> SurfacesKnown(base, o)
    ensures Elements(o.credentials) <= CredentialIds(base.credentials) <==> CredentialsKnown(base, o)
  {
    ComponentSetsIff(base, o);
    RequiredSetsIff(base, o);
    SurfaceSetsIff(base, o);
    CredentialSetsIff(base, o);
  }

  lemma ComponentSetsIff(base: Package, o: Profile)
    ensures Elements(o.components) <= ComponentIds(base.components) <==> ComponentsKnown(base, o)
  {
    AllIn(o.components, ComponentIds(base.components));
    forall i | 0 <= i < |o.components|
      ensures o.components[i] in ComponentIds(base.components) <==> ComponentIn(o.components[i], base.components)
    {
      ComponentInIff(o.components[i], base.components);
    }
    hide ComponentIds;
    hide ComponentIn;
    hide Elements;
  }

  lemma ComponentInIff(id: string, cs: seq<Component>)
    ensures id in ComponentIds(cs) <==> ComponentIn(id, cs)
  {
    if ComponentIn(id, cs) {
      var j :| 0 <= j < |cs| && cs[j].id == id;
      assert cs[j].id in ComponentIds(cs);
    }
  }

  lemma RequiredSetsIff(base: Package, o: Profile)
    ensures RequiredIds(base.components) <= Elements(o.components) <==> RequiredKept(base, o)
  {
    if RequiredIds(base.components) <= Elements(o.components) {
      forall j | 0 <= j < |base.components| && base.components[j].required
        ensures base.components[j].id in o.components
      {
        assert base.components[j].id in RequiredIds(base.components);
      }
    }
    if RequiredKept(base, o) {
      forall id | id in RequiredIds(base.components)
        ensures id in Elements(o.components)
      {
        var j :| 0 <= j < |base.components| && base.components[j].required && base.components[j].id == id;
        assert base.components[j].id in o.components;
      }
    }
  }

  /** A list is within a set when each of its items is. */
  lemma AllIn(items: seq<string>, ids: set<string>)
    ensures Elements(items) <= ids <==> forall i :: 0 <= i < |items| ==> items[i] in ids
  {
    if Elements(items) <= ids {
      forall i | 0 <= i < |items|
        ensures items[i] in ids
      {
        assert items[i] in Elements(items);
      }
    }
  }

  lemma SurfaceSetsIff(base: Package, o: Profile)
    ensures Elements(o.surfaces) <= SurfaceIds(base.components) <==> SurfacesKnown(base, o)
  {
    if Elements(o.surfaces) <= SurfaceIds(base.components) {
      forall i | 0 <= i < |o.surfaces|
        ensures SurfaceIn(o.surfaces[i], base.components)
      {
        assert o.surfaces[i] in Elements(o.surfaces);
      }
    }
    if SurfacesKnown(base, o) {
      forall id | id in Elements(o.surfaces)
        ensures id in SurfaceIds(base.components)
      {
        var i :| 0 <= i < |o.surfaces| && o.surfaces[i] == id;
        assert SurfaceIn(o.surfaces[i], base.components);
      }
    }
  }

  lemma CredentialSetsIff(base: Package, o: Profile)
    ensures Elements(o.credentials) <= CredentialIds(base.credentials) <==> CredentialsKnown(base, o)
  {
    AllIn(o.credentials, CredentialIds(base.credentials));
    forall i | 0 <= i < |o.credentials|
      ensures o.credentials[i] in CredentialIds(base.credentials) <==> CredentialIn(o.credentials[i], base.credentials)
    {
      CredentialInIff(o.credentials[i], base.credentials);
    }
    hide CredentialIds;
    hide CredentialIn;
    hide Elements;
  }

  lemma CredentialInIff(id: string, cs: seq<Credential>)
    ensures id in CredentialIds(cs) <==> CredentialIn(id, cs)
  {
    if CredentialIn(id, cs) {
      var j :| 0 <= j < |cs| && cs[j].id == id;
      assert cs[j].id in CredentialIds(cs);
    }
  }

  const REFUSALS: seq<Refusal> :=
    [InvalidPackage, WrongPackage, WrongDigest, UnknownComponents, NoComponents, DropsRequired, UnknownSurfaces,
     UnknownCredentials, NoTierFits, BelowRuntimeMinimum]

  /** The renderer's own checks, exactly: it refuses with the first that fails, and goes on to the final
      check when all ten pass and the reduced payload has a digest. */
  lemma ReduceIff(base: Package, o: Profile, schema: Schema)
    ensures var n := ChecksPassed(base, o, schema);
            && (n < 10 ==> Reduce(base, o, schema) == Err(REFUSALS[n]))
            && (n == 10 ==> (Reduce(base, o, schema).Ok? <==> schema.digest(Selected(base, o)).Some?))
            && (n == 10 && Reduce(base, o, schema).Err? ==> Reduce(base, o, schema) == Err(InvalidPackage))
  {
    hide ComponentsKnown;
    hide RequiredKept;
    hide SurfacesKnown;
    hide CredentialsKnown;
    hide SomeTierStays;
    hide UnderBoth;
    hide FitsUnder;
    hide Elements;
    hide ComponentIds;
    hide RequiredIds;
    hide SurfaceIds;
    hide CredentialIds;
    SetsIff(base, o);
    SomeTierStaysIff(base, o);
    UnderBothIff(base.runtimeMinimum, o.ceiling, base.maximum);
  }

  /** Which profiles are rendered, exactly. */
  lemma RenderIff(base: Package, o: Profile, schema: Schema)
    ensures Render(base, o, schema).Ok? <==>
            && schema.valid(base) && base.id == o.baseId && base.digest == o.baseDigest
            && ComponentsKnown(base, o) && o.components != [] && RequiredKept(base, o)
            && SurfacesKnown(base, o) && CredentialsKnown(base, o)
            && SomeTierStays(base, o) && UnderBoth(base.runtimeMinimum, base.maximum, o.ceiling)
            && schema.digest(Selected(base, o)).Some?
            && Renderable(base, o, schema.digest(Selected(base, o)).value)
  {
    hide IsReduction;
    hide ComponentsKnown;
    hide RequiredKept;
    hide SurfacesKnown;
    hide CredentialsKnown;
    hide SomeTierStays;
    hide UnderBoth;
    hide Renderable;
    hide Selected;
    ReduceIff(base, o, schema);
    if Reduce(base, o, schema).Ok? {
      ReducedDigest(base, o, schema);
      RenderPassesIff(base, o, schema);
    }
  }

  lemma ReducedDigest(base: Package, o: Profile, schema: Schema)
    requires Reduce(base, o, schema).Ok?
    ensures schema.digest(Selected(base, o)) == Some(Reduce(base, o, schema).value.manifest.digest)
  {
  }

  // ----- what the manifest holds

  /** `kept` is what `wanted` picks of `from`, all of it and in order, each as `shape` makes it. */
  ghost predicate Picked<T(!new), U(!new)>(from: seq<T>, kept: seq<U>, at: seq<nat>, wanted: T -> bool, shape: T -> U)
  {
    Placed(from, kept, at, wanted, shape) && Rising(at) && Covers(from, at, wanted)
  }

  ghost predicate Placed<T(!new), U(!new)>(from: seq<T>, kept: seq<U>, at: seq<nat>, wanted: T -> bool, shape: T -> U)
  {
    |at| == |kept| && forall i :: 0 <= i < |at| ==> at[i] < |from| && wanted(from[at[i]]) && kept[i] == shape(from[at[i]])
  }

  ghost predicate Rising(at: seq<nat>)
  {
    forall i, j :: 0 <= i < j < |at| ==> at[i] < at[j]
  }

  ghost predicate Covers<T(!new)>(from: seq<T>, at: seq<nat>, wanted: T -> bool)
  {
    forall p :: 0 <= p < |from| && wanted(from[p]) ==> p in at
  }

  function Up(at: seq<nat>): (r: seq<nat>)
    ensures |r| == |at| && forall i :: 0 <= i < |at| ==> r[i] == at[i] + 1
  {
    seq<nat>(|at|, i requires 0 <= i < |at| => at[i] + 1)
  }

  lemma PlacedUp<T(!new), U(!new)>(from: seq<T>, kept: seq<U>, at: seq<nat>, wanted: T -> bool, shape: T -> U)
    requires from != [] && Placed(from[1..], kept, at, wanted, shape)
    ensures Placed(from, kept, Up(at), wanted, shape)
  {
    assert forall i :: 0 <= i < |at| ==> from[1..][at[i]] == from[Up(at)[i]];
  }

  lemma RisingUp(at: seq<nat>)
    requires Rising(at)
    ensures Rising(Up(at)) && Rising([0] + Up(at))
  {
  }

  lemma CoversUp<T(!new)>(from: seq<T>, at: seq<nat>, wanted: T -> bool)
    requires from != [] && Covers(from[1..], at, wanted)
    ensures forall p :: 0 < p < |from| && wanted(from[p]) ==> p in Up(at)
  {
    forall p | 0 < p < |from| && wanted(from[p])
      ensures p in Up(at)
    {
      assert from[1..][p - 1] == from[p];
      var i :| 0 <= i < |at| && at[i] == p - 1;
      assert Up(at)[i] == p;
    }
  }

  lemma PlacedFirst<T(!new), U(!new)>(from: seq<T>, kept: seq<U>, at: seq<nat>, wanted: T -> bool, shape: T -> U)
    requires from != [] && wanted(from[0]) && Placed(from, kept, at, wanted, shape)
    ensures Placed(from, [shape(from[0])] + kept, [0] + at, wanted, shape)
  {
  }

  /** One item in front: the places after it move up by one. */
  lemma PickedStep<T(!new), U(!new)>(from: seq<T>, kept: seq<U>, at: seq<nat>, wanted: T -> bool, shape: T -> U) returns (next: seq<nat>)
    requires from != [] && Picked(from[1..], kept, at, wanted, shape)
    ensures Picked(from, (if wanted(from[0]) then [shape(from[0])] else []) + kept, next, wanted, shape)
  {
    hide Placed;
    hide Rising;
    PlacedUp(from, kept, at, wanted, shape);
    RisingUp(at);
    CoversUp(from, at, wanted);
    hide Up;
    if wanted(from[0]) {
      PlacedFirst(from, kept, Up(at), wanted, shape);
      next := [0] + Up(at);
    } else {
      next := Up(at);
      assert [] + kept == kept;
    }
  }

  lemma {:induction false} SurfacesPicked(ss: seq<Surface>, keep: set<string>) returns (at: seq<nat>)
    ensures Picked(ss, KeepSurfaces(ss, keep), at, (x: Surface) => x.id in keep, (x: Surface) => x)
  {
    at := [];
    if ss != [] {
      at := SurfacesPicked(ss[1..], keep);
      at := PickedStep(ss, KeepSurfaces(ss[1..], keep), at, (x: Surface) => x.id in keep, (x: Surface) => x);
    }
  }

  lemma {:induction false} ComponentsPicked(cs: seq<Component>, keep: set<string>, surfaces: set<string>) returns (at: seq<nat>)
    ensures Picked(cs, KeepComponents(cs, keep, surfaces), at, (x: Component) => x.id in keep, (x: Component) => Trim(x, surfaces))
  {
    hide Trim;
    at := [];
    if cs != [] {
      at := ComponentsPicked(cs[1..], keep, surfaces);
      at := PickedStep(cs, KeepComponents(cs[1..], keep, surfaces), at, (x: Component) => x.id in keep, (x: Component) => Trim(x, surfaces));
    }
  }

  lemma {:induction false} CredentialsPicked(cs: seq<Credential>, keep: set<string>) returns (at: seq<nat>)
    ensures Picked(cs, KeepCredentials(cs, keep), at, (x: Credential) => x.id in keep, (x: Credential) => x)
  {
    at := [];
    if cs != [] {
      at := CredentialsPicked(cs[1..], keep);
      at := PickedStep(cs, KeepCredentials(cs[1..], keep), at, (x: Credential) => x.id in keep, (x: Credential) => x);
    }
  }

  /** A rendered profile: bound to its base, every required component in the manifest, every selected one
      and no other, each with its selected surfaces and otherwise as it was, each ceiling field the
      smaller of both, nothing else changed but the digest. */
  lemma RenderedHolds(base: Package, o: Profile, schema: Schema)
    requires Render(base, o, schema).Ok?
    ensures var r := Render(base, o, schema).value;
            var m := r.manifest;
            && r.profileId == o.id && r.baseId == base.id && r.baseDigest == base.digest && r.evidence == o.evidence
            && r.selection.Some? && r.selection.value.components == ComponentIds(m.components)
            && r.selection.value.surfaces == Elements(o.surfaces) && r.selection.value.credentials == Elements(o.credentials)
            && m.components == KeepComponents(base.components, Elements(o.components), Elements(o.surfaces))
            && m.credentials == KeepCredentials(base.credentials, Elements(o.credentials))
            && (forall t :: t in m.tiers <==> t in base.tiers && TierStays(base, o, t))
            && (forall c :: c in base.components && c.required ==> c.id in ComponentIds(m.components))
            && (forall i :: 0 <= i < 6 ==> m.maximum.amounts[i] == Tightened(o.ceiling[i], base.maximum.amounts[i]))
            && m == base.(components := m.components, credentials := m.credentials, maximum := m.maximum, tiers := m.tiers, digest := m.digest)
            && m.maximum.rest == base.maximum.rest && schema.digest(Selected(base, o)) == Some(m.digest)
  {
    hide IsReduction;
    hide KeepComponents;
    hide KeepCredentials;
    hide Surviving;
    hide Survives;
    hide TierStays;
    RenderIff(base, o, schema);
    KeptIds(base.components, Elements(o.components), Elements(o.surfaces));
    forall t: Tier
      ensures Survives(t, Elements(o.components), Applied(o.ceiling, base.maximum)) <==> TierStays(base, o, t)
    {
      SurvivesIff(base, o, t);
    }
    hide Renderable;
    forall c | c in base.components && c.required
      ensures c.id in RequiredIds(base.components)
    {
      var j :| 0 <= j < |base.components| && base.components[j] == c;
    }
    SetsIff(base, o);
  }

  // ----- the check, for any manifest

  /** A component that its base has: the image, no port the base does not open, nothing widened. */
  ghost predicate NoWider(c: Component, b: Component)
  {
    && c.image == b.image && !c.privileged && !c.hostNetwork && (b.readOnlyRootfs ==> c.readOnlyRootfs)
    && forall i :: 0 <= i < |c.surfaces| ==> OpensAt(c.surfaces[i], b.surfaces)
  }

  ghost predicate OpensAt(s: Surface, ts: seq<Surface>)
  {
    exists j :: 0 <= j < |ts| && ts[j].protocol == s.protocol && ts[j].port == s.port && ts[j].service == s.service
  }

  ghost predicate ComponentFromBase(c: Component, base: seq<Component>)
  {
    exists j: nat :: LastComponent(base, j) && base[j].id == c.id && NoWider(c, base[j])
  }

  ghost predicate TierFromBase(t: Tier, base: seq<Tier>)
  {
    exists j: nat :: LastTier(base, j) && base[j].id == t.id && forall k :: 0 <= k < |t.includes| ==> t.includes[k] in base[j].includes
  }

  ghost predicate ComponentsNoWider(m: Package, base: Package)
  {
    forall i :: 0 <= i < |m.components| ==> ComponentFromBase(m.components[i], base.components)
  }

  ghost predicate TiersNoWider(m: Package, base: Package)
  {
    forall i :: 0 <= i < |m.tiers| ==> TierFromBase(m.tiers[i], base.tiers)
  }

  ghost predicate BudgetNoWider(m: Budget, base: Budget)
  {
    forall i :: 0 <= i < 6 && m.amounts[i].Number? && base.amounts[i].Number? ==> m.amounts[i].value <= base.amounts[i].value
  }

  ghost predicate CredentialsNoWider(m: Package, base: Package)
  {
    forall i :: 0 <= i < |m.credentials| ==> CredentialIn(m.credentials[i].id, base.credentials)
  }

  /** What the profile says it selected is what the manifest holds: exactly its components, and no other
      surface, credential or tier component. */
  ghost predicate AsSelected(m: Package, s: Selection)
  {
    && (forall id :: id in s.components <==> ComponentIn(id, m.components))
    && (forall i, j :: 0 <= i < |m.components| && 0 <= j < |m.components[i].surfaces| ==> m.components[i].surfaces[j].id in s.surfaces)
    && (forall i :: 0 <= i < |m.credentials| ==> m.credentials[i].id in s.credentials)
    && (forall i, j :: 0 <= i < |m.tiers| && 0 <= j < |m.tiers[i].includes| ==> m.tiers[i].includes[j] in s.components)
  }

  ghost predicate NoNewStrings(m: Package, base: Package)
  {
    forall s :: Occurs(s, Dump(m)) ==> Occurs(s, Dump(base)) || s == m.digest
  }

  lemma ComponentReducesIff(c: Component, base: seq<Component>)
    ensures ComponentReduces(c, base) <==> ComponentFromBase(c, base)
  {
    hide NoWider;
    hide Ports;
    if FindComponent(base, c.id).Some? {
      var i :| 0 <= i < |base| && base[i] == FindComponent(base, c.id).value;
      var j := FindLastComponent(base, i);
      NoWiderIff(c, base[j]);
    }
    if j: nat :| LastComponent(base, j) && base[j].id == c.id && NoWider(c, base[j]) {
      var k := FindLastComponent(base, j);
      assert k == j;
      NoWiderIff(c, base[j]);
    }
  }

  lemma NoWiderIff(c: Component, b: Component)
    ensures NoWider(c, b) <==>
            c.image == b.image && Ports(c.surfaces) <= Ports(b.surfaces) && !c.privileged && !c.hostNetwork
            && (b.readOnlyRootfs ==> c.readOnlyRootfs)
  {
    hide Ports;
    hide OpensAt;
    PortsIff(c.surfaces, b.surfaces);
  }

  lemma PortsIff(ss: seq<Surface>, ts: seq<Surface>)
    ensures Ports(ss) <= Ports(ts) <==>
            forall i :: 0 <= i < |ss| ==> OpensAt(ss[i], ts)
  {
    assert forall i :: 0 <= i < |ss| ==> (ss[i].protocol, ss[i].port, ss[i].service) in Ports(ss);
    assert forall i :: 0 <= i < |ts| ==> (ts[i].protocol, ts[i].port, ts[i].service) in Ports(ts);
  }

  lemma TierReducesIff(t: Tier, base: seq<Tier>)
    ensures TierReduces(t, base) <==> TierFromBase(t, base)
  {
    assert forall k :: 0 <= k < |t.includes| ==> t.includes[k] in Elements(t.includes);
    if FindTier(base, t.id).Some? {
      var i :| 0 <= i < |base| && base[i] == FindTier(base, t.id).value;
      var j := FindLastTier(base, i);
    }
    if j: nat :| LastTier(base, j) && base[j].id == t.id && forall k :: 0 <= k < |t.includes| ==> t.includes[k] in base[j].includes {
      var k := FindLastTier(base, j);
      assert k == j;
    }
  }

  lemma SelectionIff(m: Package, s: Selection)
    ensures MatchesSelection(m, s) <==> AsSelected(m, s)
  {
    assert forall i :: 0 <= i < |m.components| ==> m.components[i].id in ComponentIds(m.components);
    assert forall i, j :: 0 <= i < |m.components| && 0 <= j < |m.components[i].surfaces| ==>
                            m.components[i].surfaces[j].id in SurfaceIds(m.components);
    assert forall i :: 0 <= i < |m.credentials| ==> m.credentials[i].id in CredentialIds(m.credentials);
    assert forall i, j :: 0 <= i < |m.tiers| && 0 <= j < |m.tiers[i].includes| ==> m.tiers[i].includes[j] in Elements(m.tiers[i].includes);
  }

  /** What the check accepts, exactly, of any manifest whatever made it: one that widens nothing of a valid
      base, in any dimension, and is what its selection says. */
  lemma CheckedIff(base: Package, r: Rendered, schema: Schema)
    ensures IsReduction(base, r, schema) <==>
            var m := r.manifest;
            && schema.valid(base) && ComponentsNoWider(m, base) && (r.selection.Some? ==> AsSelected(m, r.selection.value))
            && CredentialsNoWider(m, base) && BudgetNoWider(m.maximum, base.maximum) && TiersNoWider(m, base)
            && m.safety == base.safety && NoNewStrings(m, base)
  {
    hide ComponentReduces;
    hide TierReduces;
    hide ComponentFromBase;
    hide TierFromBase;
    hide MatchesSelection;
    hide AsSelected;
    hide CredentialIds;
    hide CredentialsNoWider;
    hide Dump;
    var m := r.manifest;
    forall i | 0 <= i < |m.components|
      ensures ComponentReduces(m.components[i], base.components) <==> ComponentFromBase(m.components[i], base.components)
    {
      ComponentReducesIff(m.components[i], base.components);
    }
    forall i | 0 <= i < |m.tiers|
      ensures TierReduces(m.tiers[i], base.tiers) <==> TierFromBase(m.tiers[i], base.tiers)
    {
      TierReducesIff(m.tiers[i], base.tiers);
    }
    if r.selection.Some? {
      SelectionIff(m, r.selection.value);
    }
    CredentialsIff(m, base);
  }

  lemma CredentialsIff(m: Package, base: Package)
    ensures CredentialIds(m.credentials) <= CredentialIds(base.credentials) <==> CredentialsNoWider(m, base)
  {
    forall id
      ensures id in CredentialIds(base.credentials) <==> CredentialIn(id, base.credentials)
      ensures id in CredentialIds(m.credentials) <==> CredentialIn(id, m.credentials)
    {
      CredentialInIff(id, base.credentials);
      CredentialInIff(id, m.credentials);
    }
    hide CredentialIds;
    if CredentialsNoWider(m, base) {
      forall id | CredentialIn(id, m.credentials)
        ensures CredentialIn(id, base.credentials)
      {
        var i :| 0 <= i < |m.credentials| && m.credentials[i].id == id;
      }
    }
    if forall id :: CredentialIn(id, m.credentials) ==> CredentialIn(id, base.credentials) {
      forall i | 0 <= i < |m.credentials|
        ensures CredentialIn(m.credentials[i].id, base.credentials)
      {
        assert CredentialIn(m.credentials[i].id, m.credentials);
      }
    }
  }

  // ----- the tree the strings are collected from

  lemma InList<T>(items: seq<T>, dump: T -> Tree, x: T, s: string)
    requires x in items && Occurs(s, dump(x))
    ensures Occurs(s, DumpAll(items, dump))
  {
    var i :| 0 <= i < |items| && items[i] == x;
    var trees := seq(|items|, j requires 0 <= j < |items| => dump(items[j]));
    assert trees[i] == dump(x);
  }

  lemma InDict(fields: Fields, i: nat, s: string)
    requires i < |fields| && (s == fields[i].0 || Occurs(s, fields[i].1))
    ensures Occurs(s, Dict(fields))
  {
  }

  /** The tree holds every string of the package that a rendering could change: ids, images, ports'
      protocols and services, tiers' components, and whatever its other fields hold. */
  lemma DumpHolds(p: Package, s: string)
    ensures s == p.id || s == p.digest ==> Occurs(s, Dump(p))
    ensures Occurs(s, p.safety) || Occurs(s, Dict(p.rest)) ==> Occurs(s, Dump(p))
    ensures forall c :: c in p.components && (s == c.id || s == c.image || Occurs(s, Dict(c.rest))) ==> Occurs(s, Dump(p))
    ensures forall c, f :: c in p.components && f in c.surfaces && (s == f.id || s == f.protocol || s == f.service || Occurs(s, Dict(f.rest))) ==>
              Occurs(s, Dump(p))
    ensures forall c :: c in p.credentials && (s == c.id || Occurs(s, Dict(c.rest))) ==> Occurs(s, Dump(p))
    ensures forall t :: t in p.tiers && (s == t.id || s in t.includes || Occurs(s, Dict(t.rest))) ==> Occurs(s, Dump(p))
  {
    hide DumpAll;
    hide Occurs;
    var fields := Dump(p).fields;
    assert fields[0] == ("package_id", Text(p.id)) && fields[1] == ("package_digest", Text(p.digest)) && fields[7] == ("safety", p.safety);
    assert fields[2].1 == DumpAll(p.components, DumpComponent) && fields[3].1 == DumpAll(p.credentials, DumpCredential)
           && fields[5].1 == DumpAll(p.tiers, DumpTier);
    TextOccurs(p.id);
    TextOccurs(p.digest);
    assert fields == fields[..8] + p.rest;
    DictConcat(s, fields[..8], p.rest);
    forall i: nat | i < |fields| && (s == fields[i].0 || Occurs(s, fields[i].1))
      ensures Occurs(s, Dump(p))
    {
      InDict(fields, i, s);
    }
    forall c | c in p.components && Occurs(s, DumpComponent(c))
      ensures Occurs(s, fields[2].1)
    {
      InList(p.components, DumpComponent, c, s);
    }
    forall c | c in p.credentials && Occurs(s, DumpCredential(c))
      ensures Occurs(s, fields[3].1)
    {
      InList(p.credentials, DumpCredential, c, s);
    }
    forall t | t in p.tiers && Occurs(s, DumpTier(t))
      ensures Occurs(s, fields[5].1)
    {
      InList(p.tiers, DumpTier, t, s);
    }
    forall c: Component
      ensures s == c.id || s == c.image || Occurs(s, Dict(c.rest)) ==> Occurs(s, DumpComponent(c))
      ensures forall f :: f in c.surfaces && (s == f.id || s == f.protocol || s == f.service || Occurs(s, Dict(f.rest))) ==>
                Occurs(s, DumpComponent(c))
    {
      ComponentHolds(c, s);
    }
    forall c: Credential
      ensures s == c.id || Occurs(s, Dict(c.rest)) ==> Occurs(s, DumpCredential(c))
    {
      CredentialHolds(c, s);
    }
    forall t: Tier
      ensures s == t.id || s in t.includes || Occurs(s, Dict(t.rest)) ==> Occurs(s, DumpTier(t))
    {
      TierHolds(t, s);
    }
  }

  lemma TextOccurs(s: string)
    ensures Occurs(s, Text(s))
  {
  }

  lemma ComponentHolds(c: Component, s: string)
    ensures s == c.id || s == c.image || Occurs(s, Dict(c.rest)) ==> Occurs(s, DumpComponent(c))
    ensures forall f :: f in c.surfaces && (s == f.id || s == f.protocol || s == f.service || Occurs(s, Dict(f.rest))) ==>
              Occurs(s, DumpComponent(c))
  {
    hide DumpAll;
    var fields := DumpComponent(c).fields;
    assert fields[0] == ("component_id", Text(c.id)) && fields[1] == ("image", Text(c.image))
           && fields[3] == ("surfaces", DumpAll(c.surfaces, DumpSurface));
    assert fields == fields[..7] + c.rest;
    DictConcat(s, fields[..7], c.rest);
    forall f | f in c.surfaces && (s == f.id || s == f.protocol || s == f.service || Occurs(s, Dict(f.rest)))
      ensures Occurs(s, DumpComponent(c))
    {
      SurfaceHolds(f, s);
      InList(c.surfaces, DumpSurface, f, s);
      InDict(fields, 3, s);
    }
    if s == c.id {
      InDict(fields, 0, s);
    }
    if s == c.image {
      InDict(fields, 1, s);
    }
  }

  lemma SurfaceHolds(f: Surface, s: string)
    ensures s == f.id || s == f.protocol || s == f.service || Occurs(s, Dict(f.rest)) ==> Occurs(s, DumpSurface(f))
  {
    var fields := DumpSurface(f).fields;
    assert fields[0].1 == Text(f.id) && fields[1].1 == Text(f.protocol) && fields[3].1 == Text(f.service);
    assert fields == fields[..4] + f.rest;
    DictConcat(s, fields[..4], f.rest);
  }

  lemma CredentialHolds(c: Credential, s: string)
    ensures s == c.id || Occurs(s, Dict(c.rest)) ==> Occurs(s, DumpCredential(c))
  {
    var fields := DumpCredential(c).fields;
    assert fields[0].1 == Text(c.id) && fields == fields[..1] + c.rest;
    DictConcat(s, fields[..1], c.rest);
  }

  lemma TierHolds(t: Tier, s: string)
    ensures s == t.id || s in t.includes || Occurs(s, Dict(t.rest)) ==> Occurs(s, DumpTier(t))
  {
    hide DumpAll;
    var fields := DumpTier(t).fields;
    assert fields[0].1 == Text(t.id) && fields[1].1 == DumpAll(t.includes, id => Text(id));
    assert fields == fields[..3] + t.rest;
    DictConcat(s, fields[..3], t.rest);
    if s == t.id {
      InDict(fields, 0, s);
    }
    if s in t.includes {
      InList(t.includes, id => Text(id), s, s);
      InDict(fields, 1, s);
    }
  }
}
