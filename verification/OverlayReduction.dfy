/** What rendering promises: one rendering does what two in a row do, and what the renderer builds the
    independent check accepts, under an exact condition on the base and the ceiling. */
module OverlayReduction {
  import opened Common
  import opened Json
  import opened Overlay

  // ----- two renderings are one

  function Tighter(a: Option<real>, b: Option<real>): Option<real>
  {
    if a.None? then b else if b.None? then a else Some(Smaller(a.value, b.value))
  }

  function BothCeilings(a: Ceiling, b: Ceiling): Ceiling
  {
    seq(6, i requires 0 <= i < 6 => Tighter(a[i], b[i]))
  }

  /** The second profile's selection on the first one's base, under both ceilings. */
  function Both(first: Profile, second: Profile): Profile
  {
    second.(baseId := first.baseId, baseDigest := first.baseDigest, ceiling := BothCeilings(first.ceiling, second.ceiling))
  }

  ghost predicate UnderCeiling(m: Budget, c: Ceiling)
  {
    forall i :: 0 <= i < 6 && m.amounts[i].Number? && c[i].Some? ==> m.amounts[i].value <= c[i].value
  }

  /** Tightening a budget is the most it can be: what fits under the result is exactly what fits
      under both the base and the profile's ceiling. */
  lemma AppliedIsTheMeet(m: Budget, c: Ceiling, base: Budget)
    ensures FitsUnder(m, Applied(c, base)) <==> FitsUnder(m, base) && UnderCeiling(m, c)
  {
    forall i | 0 <= i < 6
      ensures Applied(c, base).amounts[i] == Tightened(c[i], base.amounts[i])
    {
    }
    if FitsUnder(m, Applied(c, base)) {
      forall i | 0 <= i < 6 && m.amounts[i].Number?
        ensures base.amounts[i].Number? ==> m.amounts[i].value <= base.amounts[i].value
        ensures c[i].Some? ==> m.amounts[i].value <= c[i].value
      {
        assert Applied(c, base).amounts[i].Number? ==> m.amounts[i].value <= Applied(c, base).amounts[i].value;
      }
    }
  }

  lemma CeilingsCompose(a: Ceiling, b: Ceiling, base: Budget)
    ensures Applied(b, Applied(a, base)) == Applied(BothCeilings(a, b), base)
    ensures forall m: Budget :: FitsUnder(m, Applied(b, base)) ==> FitsUnder(m, base)
  {
    assert forall i :: 0 <= i < 6 ==>
                         Applied(b, Applied(a, base)).amounts[i] == Applied(BothCeilings(a, b), base).amounts[i];
    forall m: Budget | FitsUnder(m, Applied(b, base))
      ensures FitsUnder(m, base)
    {
      forall i | 0 <= i < 6 && m.amounts[i].Number? && base.amounts[i].Number?
        ensures m.amounts[i].value <= base.amounts[i].value
      {
        assert Applied(b, base).amounts[i] == Tightened(b[i], base.amounts[i]);
      }
    }
  }

  lemma {:induction false} SurfacesCompose(ss: seq<Surface>, a: set<string>, b: set<string>)
    requires b <= a
    ensures KeepSurfaces(KeepSurfaces(ss, a), b) == KeepSurfaces(ss, b)
  {
    if ss != [] {
      SurfacesCompose(ss[1..], a, b);
      if ss[0].id in a {
        assert ([ss[0]] + KeepSurfaces(ss[1..], a))[1..] == KeepSurfaces(ss[1..], a);
      } else {
        assert KeepSurfaces(ss, a) == KeepSurfaces(ss[1..], a) && KeepSurfaces(ss, b) == KeepSurfaces(ss[1..], b);
      }
    }
  }

  lemma {:induction false} ComponentsCompose(cs: seq<Component>, k: set<string>, s: set<string>, k': set<string>, s': set<string>)
    requires k' <= k && s' <= s
    ensures KeepComponents(KeepComponents(cs, k, s), k', s') == KeepComponents(cs, k', s')
  {
    if cs != [] {
      ComponentsCompose(cs[1..], k, s, k', s');
      if cs[0].id in k {
        var kept := [Trim(cs[0], s)] + KeepComponents(cs[1..], k, s);
        assert kept[1..] == KeepComponents(cs[1..], k, s) && kept[0].id == cs[0].id;
        SurfacesCompose(cs[0].surfaces, s, s');
        assert Trim(Trim(cs[0], s), s') == Trim(cs[0], s');
      } else {
        assert KeepComponents(cs, k, s) == KeepComponents(cs[1..], k, s);
        assert KeepComponents(cs, k', s') == KeepComponents(cs[1..], k', s');
      }
    }
  }

  lemma {:induction false} CredentialsCompose(cs: seq<Credential>, a: set<string>, b: set<string>)
    requires b <= a
    ensures KeepCredentials(KeepCredentials(cs, a), b) == KeepCredentials(cs, b)
  {
    if cs != [] {
      CredentialsCompose(cs[1..], a, b);
      if cs[0].id in a {
        assert ([cs[0]] + KeepCredentials(cs[1..], a))[1..] == KeepCredentials(cs[1..], a);
      } else {
        assert KeepCredentials(cs, a) == KeepCredentials(cs[1..], a) && KeepCredentials(cs, b) == KeepCredentials(cs[1..], b);
      }
    }
  }

  lemma {:induction false} TiersCompose(ts: seq<Tier>, k: set<string>, cap: Budget, k': set<string>, cap': Budget)
    requires k' <= k && forall m: Budget :: FitsUnder(m, cap') ==> FitsUnder(m, cap)
    ensures Surviving(Surviving(ts, k, cap), k', cap') == Surviving(ts, k', cap')
  {
    if ts != [] {
      var front, last := ts[..|ts| - 1], ts[|ts| - 1];
      TiersCompose(front, k, cap, k', cap');
      if Survives(last, k, cap) {
        assert (Surviving(front, k, cap) + [last])[..|Surviving(front, k, cap)|] == Surviving(front, k, cap);
      } else {
        assert Surviving(ts, k, cap) == Surviving(front, k, cap) && Surviving(ts, k', cap') == Surviving(front, k', cap');
      }
    }
  }

  lemma KeptIds(cs: seq<Component>, k: set<string>, s: set<string>)
    ensures ComponentIds(KeepComponents(cs, k, s)) == ComponentIds(cs) * k
    ensures RequiredIds(KeepComponents(cs, k, s)) == RequiredIds(cs) * k
    ensures SurfaceIds(KeepComponents(cs, k, s)) <= SurfaceIds(cs) * s
  {
    var kept := KeepComponents(cs, k, s);
    forall c
      ensures c in kept <==> exists j :: 0 <= j < |cs| && cs[j].id in k && c == Trim(cs[j], s)
    {
      KeptIffSelected(cs, k, s, c);
    }
    forall i | 0 <= i < |kept|
      ensures kept[i].id in ComponentIds(cs) * k && (kept[i].required ==> kept[i].id in RequiredIds(cs) * k)
      ensures forall j :: 0 <= j < |kept[i].surfaces| ==> kept[i].surfaces[j].id in SurfaceIds(cs) * s
    {
      assert kept[i] in kept;
      var from :| 0 <= from < |cs| && cs[from].id in k && kept[i] == Trim(cs[from], s);
    }
    forall j | 0 <= j < |cs| && cs[j].id in k
      ensures cs[j].id in ComponentIds(kept) && (cs[j].required ==> cs[j].id in RequiredIds(kept))
    {
      assert Trim(cs[j], s) in kept;
    }
  }

  lemma KeptCredentialIds(cs: seq<Credential>, keep: set<string>)
    ensures CredentialIds(KeepCredentials(cs, keep)) <= CredentialIds(cs) * keep
  {
  }

  /** The digest covers everything but the digest field itself. */
  ghost predicate DigestBlind(schema: Schema)
  {
    forall p: Package, d: string :: schema.digest(p.(digest := d)) == schema.digest(p)
  }

  /** Rendering one profile and then another builds the manifest, digest included, that rendering the
      base once builds with the second selection and the smaller of both ceilings, field by field;
      whatever refuses the single rendering would have refused one of the two. */
  lemma RenderingsCompose(base: Package, first: Profile, second: Profile, schema: Schema)
    requires DigestBlind(schema)
    requires Reduce(base, first, schema).Ok?
    requires Reduce(Reduce(base, first, schema).value.manifest, second, schema).Ok?
    ensures var once := Reduce(base, Both(first, second), schema);
            var twice := Reduce(Reduce(base, first, schema).value.manifest, second, schema).value;
            once == Ok(twice.(baseId := base.id, baseDigest := base.digest))
  {
    hide FitsUnder;
    var m := Reduce(base, first, schema).value.manifest;
    var k, s, c := Elements(first.components), Elements(first.surfaces), Elements(first.credentials);
    var k', s', c' := Elements(second.components), Elements(second.surfaces), Elements(second.credentials);
    KeptIds(base.components, k, s);
    KeptCredentialIds(base.credentials, c);
    ComponentsCompose(base.components, k, s, k', s');
    CredentialsCompose(base.credentials, c, c');
    var cap := Applied(first.ceiling, base.maximum);
    CeilingsCompose(first.ceiling, second.ceiling, base.maximum);
    CeilingsCompose(first.ceiling, second.ceiling, cap);
    TiersCompose(base.tiers, k, cap, k', Applied(second.ceiling, cap));
    assert Selected(m, second).(digest := base.digest) == Selected(base, Both(first, second));
    assert schema.digest(Selected(m, second)) == schema.digest(Selected(base, Both(first, second)));
  }

  // ----- what the renderer builds, the check accepts

  lemma TrimDraws(c: Component, keep: set<string>)
    ensures Draws(DumpComponent(Trim(c, keep)), DumpComponent(c), {})
  {
    var t := Trim(c, keep);
    DumpAllDraws(t.surfaces, c.surfaces, DumpSurface, {});
    var fs := DumpComponent(t).fields;
    var gs := DumpComponent(c).fields;
    assert forall i :: 0 <= i < |fs| && i != 3 ==> fs[i] == gs[i];
    DictDraws(fs, gs, {});
  }

  /** The ceiling fields a profile adds to a budget that has no such key. */
  ghost function NewKeys(c: Ceiling, base: Budget): set<string>
  {
    set i | 0 <= i < 6 && c[i].Some? && base.amounts[i].Absent? :: CEILING_FIELDS[i]
  }

  lemma {:induction false} AmountKeys(s: string, amounts: Amounts, n: nat)
    requires n <= 6
    ensures Occurs(s, Dict(DumpAmounts(amounts, n))) <==> exists i :: 0 <= i < n && !amounts[i].Absent? && CEILING_FIELDS[i] == s
  {
    if n > 0 {
      AmountKeys(s, amounts, n - 1);
      var added: Fields := if amounts[n - 1].Absent? then [] else [(CEILING_FIELDS[n - 1], Other)];
      DictConcat(s, DumpAmounts(amounts, n - 1), added);
      assert Occurs(s, Dict(added)) <==> !amounts[n - 1].Absent? && CEILING_FIELDS[n - 1] == s by {
        if !amounts[n - 1].Absent? {
          assert added[0].0 == CEILING_FIELDS[n - 1];
        }
      }
    }
  }

  lemma BudgetStrings(s: string, c: Ceiling, base: Budget)
    ensures Occurs(s, DumpBudget(Applied(c, base))) <==> Occurs(s, DumpBudget(base)) || s in NewKeys(c, base)
  {
    var cap := Applied(c, base);
    AmountKeys(s, base.amounts, 6);
    AmountKeys(s, cap.amounts, 6);
    DictConcat(s, DumpAmounts(base.amounts, 6), base.rest);
    DictConcat(s, DumpAmounts(cap.amounts, 6), cap.rest);
    if s in NewKeys(c, base) {
      var i :| 0 <= i < 6 && c[i].Some? && base.amounts[i].Absent? && CEILING_FIELDS[i] == s;
      assert !cap.amounts[i].Absent?;
    }
    if i :| 0 <= i < 6 && !base.amounts[i].Absent? && CEILING_FIELDS[i] == s {
      assert !cap.amounts[i].Absent?;
    }
  }

  lemma ComponentsDraw(cs: seq<Component>, keep: set<string>, surfaces: set<string>, extra: set<string>)
    ensures Draws(DumpAll(KeepComponents(cs, keep, surfaces), DumpComponent), DumpAll(cs, DumpComponent), extra)
  {
    hide DumpComponent;
    var kept := KeepComponents(cs, keep, surfaces);
    forall c | c in kept
      ensures exists b :: b in cs && Draws(DumpComponent(c), DumpComponent(b), extra)
    {
      KeptIffSelected(cs, keep, surfaces, c);
      var j :| 0 <= j < |cs| && c == Trim(cs[j], surfaces);
      TrimDraws(cs[j], surfaces);
      assert cs[j] in cs && Draws(DumpComponent(c), DumpComponent(cs[j]), extra);
    }
    DumpAllDraws(kept, cs, DumpComponent, extra);
  }

  /** Keeping some of the items keeps to their strings. */
  lemma SomeDraw<T>(items: seq<T>, from: seq<T>, dump: T -> Tree, extra: set<string>)
    requires forall x :: x in items ==> x in from
    ensures Draws(DumpAll(items, dump), DumpAll(from, dump), extra)
  {
    assert forall x :: x in items ==> x in from && Draws(dump(x), dump(x), extra);
    DumpAllDraws(items, from, dump, extra);
  }

  lemma BudgetDraws(c: Ceiling, base: Budget, extra: set<string>)
    requires NewKeys(c, base) <= extra
    ensures Draws(DumpBudget(Applied(c, base)), DumpBudget(base), extra)
  {
    forall s | Occurs(s, DumpBudget(Applied(c, base)))
      ensures Occurs(s, DumpBudget(base)) || s in extra
    {
      BudgetStrings(s, c, base);
    }
  }

  /** The strings of what the profile selects: all from the base, but for its digest and new keys. */
  lemma SelectedDraws(base: Package, o: Profile, digest: string)
    ensures Draws(Dump(Selected(base, o).(digest := digest)), Dump(base), {digest} + NewKeys(o.ceiling, base.maximum))
  {
    hide DumpComponent;
    hide DumpCredential;
    hide DumpTier;
    hide DumpBudget;
    hide DumpAll;
    hide NewKeys;
    hide Applied;
    hide KeepComponents;
    hide KeepCredentials;
    hide KeepSurfaces;
    hide Surviving;
    hide Survives;
    hide Elements;
    var m := Selected(base, o).(digest := digest);
    var extra := {digest} + NewKeys(o.ceiling, base.maximum);
    ComponentsDraw(base.components, Elements(o.components), Elements(o.surfaces), extra);
    SomeDraw(m.credentials, base.credentials, DumpCredential, extra);
    SomeDraw(m.tiers, base.tiers, DumpTier, extra);
    BudgetDraws(o.ceiling, base.maximum, extra);
    var fs, gs := Dump(m).fields, Dump(base).fields;
    assert fs[1] == ("package_digest", Text(digest)) && gs[1].0 == "package_digest";
    assert Draws(fs[1].1, gs[1].1, extra);
    assert fs[2] == ("components", DumpAll(m.components, DumpComponent)) && gs[2].1 == DumpAll(base.components, DumpComponent);
    assert fs[3].1 == DumpAll(m.credentials, DumpCredential) && gs[3].1 == DumpAll(base.credentials, DumpCredential);
    assert fs[4].1 == DumpBudget(m.maximum) && gs[4].1 == DumpBudget(base.maximum);
    assert fs[5].1 == DumpAll(m.tiers, DumpTier) && gs[5].1 == DumpAll(base.tiers, DumpTier);
    assert forall i :: 6 <= i < |fs| ==> fs[i] == gs[i];
    DictDraws(fs, gs, extra);
  }

  lemma NewKeysOccur(base: Package, o: Profile, digest: string, s: string)
    requires s in NewKeys(o.ceiling, base.maximum)
    ensures Occurs(s, Dump(Selected(base, o).(digest := digest)))
  {
    hide DumpBudget;
    hide DumpAll;
    var m := Selected(base, o).(digest := digest);
    BudgetStrings(s, o.ceiling, base.maximum);
    var fs := Dump(m).fields;
    assert fs[4] == ("maximum_budget", DumpBudget(m.maximum));
    assert Occurs(s, fs[4].1);
  }

  // ----- ids used more than once: the check finds the last item of an id

  ghost predicate LastComponent(cs: seq<Component>, j: nat)
  {
    j < |cs| && forall k :: j < k < |cs| ==> cs[k].id != cs[j].id
  }

  ghost predicate LastTier(ts: seq<Tier>, j: nat)
  {
    j < |ts| && forall k :: j < k < |ts| ==> ts[k].id != ts[j].id
  }

  /** Where a kept component's id is used again, the last use has its image, its kept ports and, if it
      is read-only, a read-only root file system. */
  ghost predicate ComponentRepeatsAgree(base: Package, o: Profile)
  {
    var cs := base.components;
    forall i, j :: 0 <= i < j < |cs| && cs[i].id == cs[j].id && LastComponent(cs, j) && cs[i].id in Elements(o.components) ==>
      && cs[i].image == cs[j].image
      && Ports(KeepSurfaces(cs[i].surfaces, Elements(o.surfaces))) <= Ports(cs[j].surfaces)
      && (cs[j].readOnlyRootfs ==> cs[i].readOnlyRootfs)
  }

  /** Where a surviving tier's id is used again, the last use includes its components. */
  ghost predicate TierRepeatsAgree(base: Package, o: Profile)
  {
    var ts := base.tiers;
    forall i, j :: 0 <= i < j < |ts| && ts[i].id == ts[j].id && LastTier(ts, j)
                   && Survives(ts[i], Elements(o.components), Applied(o.ceiling, base.maximum)) ==>
      Elements(ts[i].includes) <= Elements(ts[j].includes)
  }

  lemma {:induction false} FindLastComponent(cs: seq<Component>, i: nat) returns (j: nat)
    requires i < |cs|
    ensures i <= j && LastComponent(cs, j) && cs[j].id == cs[i].id && FindComponent(cs, cs[i].id) == Some(cs[j])
  {
    j := |cs| - 1;
    if cs[j].id != cs[i].id {
      j := FindLastComponent(cs[..j], i);
    }
  }

  lemma {:induction false} FindLastTier(ts: seq<Tier>, i: nat) returns (j: nat)
    requires i < |ts|
    ensures i <= j && LastTier(ts, j) && ts[j].id == ts[i].id && FindTier(ts, ts[i].id) == Some(ts[j])
  {
    j := |ts| - 1;
    if ts[j].id != ts[i].id {
      j := FindLastTier(ts[..j], i);
    }
  }

  /** The profile keeps no component that is privileged or on the host network. */
  ghost predicate KeepsNoneWidened(base: Package, o: Profile)
  {
    forall i :: 0 <= i < |base.components| && base.components[i].id in Elements(o.components) ==>
                  !base.components[i].privileged && !base.components[i].hostNetwork
  }

  /** Every ceiling field the profile adds is already a string of the base, or the new digest. */
  ghost predicate NewKeysKnown(base: Package, o: Profile, digest: string)
  {
    forall s :: s in NewKeys(o.ceiling, base.maximum) ==> s == digest || Occurs(s, Dump(base))
  }

  lemma TrimReduces(base: Package, o: Profile, i: nat)
    requires i < |base.components|
    ensures var c := base.components[i];
            ComponentReduces(Trim(c, Elements(o.surfaces)), base.components) <==>
              !c.privileged && !c.hostNetwork && ComponentRepeatsAgreeAt(base, o, i)
  {
    var j := FindLastComponent(base.components, i);
    KeptPorts(base.components[i].surfaces, Elements(o.surfaces));
  }

  ghost predicate ComponentRepeatsAgreeAt(base: Package, o: Profile, i: nat)
    requires i < |base.components|
  {
    var cs := base.components;
    forall j :: i < j < |cs| && cs[i].id == cs[j].id && LastComponent(cs, j) ==>
      && cs[i].image == cs[j].image
      && Ports(KeepSurfaces(cs[i].surfaces, Elements(o.surfaces))) <= Ports(cs[j].surfaces)
      && (cs[j].readOnlyRootfs ==> cs[i].readOnlyRootfs)
  }

  lemma KeptComponentsReduce(base: Package, o: Profile)
    ensures (forall c :: c in Selected(base, o).components ==> ComponentReduces(c, base.components))
            <==> KeepsNoneWidened(base, o) && ComponentRepeatsAgree(base, o)
  {
    hide KeepComponents;
    hide ComponentReduces;
    hide ComponentRepeatsAgree;
    hide ComponentRepeatsAgreeAt;
    hide Trim;
    hide Elements;
    var keep, surfaces := Elements(o.components), Elements(o.surfaces);
    var cs := base.components;
    forall c
      ensures c in Selected(base, o).components <==>
              exists j :: 0 <= j < |cs| && cs[j].id in keep && c == Trim(cs[j], surfaces)
    {
      KeptIffSelected(cs, keep, surfaces, c);
    }
    forall i | 0 <= i < |cs|
      ensures ComponentReduces(Trim(cs[i], surfaces), cs) <==>
              !cs[i].privileged && !cs[i].hostNetwork && ComponentRepeatsAgreeAt(base, o, i)
    {
      TrimReduces(base, o, i);
    }
    AgreeAtEach(base, o);
    if forall c :: c in Selected(base, o).components ==> ComponentReduces(c, cs) {
      forall i | 0 <= i < |cs| && cs[i].id in keep
        ensures !cs[i].privileged && !cs[i].hostNetwork && ComponentRepeatsAgreeAt(base, o, i)
      {
        assert Trim(cs[i], surfaces) in Selected(base, o).components;
      }
    }
  }

  lemma AgreeAtEach(base: Package, o: Profile)
    ensures ComponentRepeatsAgree(base, o) <==>
            forall i :: 0 <= i < |base.components| && base.components[i].id in Elements(o.components) ==>
                          ComponentRepeatsAgreeAt(base, o, i)
  {
  }

  lemma SurvivingTiersReduce(base: Package, o: Profile)
    ensures (forall t :: t in Selected(base, o).tiers ==> TierReduces(t, base.tiers)) <==> TierRepeatsAgree(base, o)
  {
    hide Surviving;
    hide Survives;
    var ts := base.tiers;
    var keep, cap := Elements(o.components), Applied(o.ceiling, base.maximum);
    if TierRepeatsAgree(base, o) {
      forall t | t in Selected(base, o).tiers
        ensures TierReduces(t, ts)
      {
        var i :| 0 <= i < |ts| && ts[i] == t;
        var j := FindLastTier(ts, i);
      }
    }
    if forall t :: t in Selected(base, o).tiers ==> TierReduces(t, ts) {
      forall i, j | 0 <= i < j < |ts| && ts[i].id == ts[j].id && LastTier(ts, j) && Survives(ts[i], keep, cap)
        ensures Elements(ts[i].includes) <= Elements(ts[j].includes)
      {
        var k := FindLastTier(ts, i);
        assert k == j;
        assert ts[i] in Selected(base, o).tiers;
      }
    }
  }

  lemma KeptPorts(ss: seq<Surface>, keep: set<string>)
    ensures Ports(KeepSurfaces(ss, keep)) <= Ports(ss)
  {
    var kept := KeepSurfaces(ss, keep);
    forall i | 0 <= i < |kept|
      ensures (kept[i].protocol, kept[i].port, kept[i].service) in Ports(ss)
    {
      assert kept[i] in ss;
    }
  }

  /** What a caller can look at before rendering: no kept component is privileged or on the host
      network, ids used more than once agree with their last use, and every ceiling field the profile
      adds is a string the base already has. */
  ghost predicate Renderable(base: Package, o: Profile, digest: string)
  {
    && KeepsNoneWidened(base, o) && ComponentRepeatsAgree(base, o) && TierRepeatsAgree(base, o)
    && NewKeysKnown(base, o, digest)
  }

  /** Once the renderer's own checks pass, the final check accepts exactly the renderable. Where ids
      are unique and the base states every ceiling field, only kept privileges are left of that. */
  lemma RenderPassesIff(base: Package, o: Profile, schema: Schema)
    requires Reduce(base, o, schema).Ok?
    ensures Render(base, o, schema).Ok? <==> Renderable(base, o, Reduce(base, o, schema).value.manifest.digest)
    ensures (forall i :: 0 <= i < 6 ==> !base.maximum.amounts[i].Absent?) ==>
              NewKeysKnown(base, o, Reduce(base, o, schema).value.manifest.digest)
  {
    hide Dump;
    hide FitsUnder;
    hide ComponentReduces;
    hide KeepsNoneWidened;
    hide ComponentRepeatsAgree;
    hide TierRepeatsAgree;
    hide TierReduces;
    hide KeepComponents;
    hide KeepCredentials;
    hide KeepSurfaces;
    hide Surviving;
    var r := Reduce(base, o, schema).value;
    var m := r.manifest;
    KeptComponentsReduce(base, o);
    SurvivingTiersReduce(base, o);
    SelectedDraws(base, o, m.digest);
    KeptIds(base.components, Elements(o.components), Elements(o.surfaces));
    KeptCredentialIds(base.credentials, Elements(o.credentials));
    assert forall i :: 0 <= i < |m.tiers| ==> m.tiers[i] in m.tiers && Elements(m.tiers[i].includes) <= Elements(o.components);
    assert MatchesSelection(m, r.selection.value);
    assert FitsUnder(m.maximum, base.maximum) by { CeilingFits(o.ceiling, base.maximum); }
    assert Draws(Dump(m), Dump(base), {m.digest}) <==> NewKeysKnown(base, o, m.digest) by {
      forall s | s in NewKeys(o.ceiling, base.maximum)
        ensures Occurs(s, Dump(m))
      {
        NewKeysOccur(base, o, m.digest, s);
      }
    }
  }

  lemma CeilingFits(c: Ceiling, base: Budget)
    ensures FitsUnder(Applied(c, base), base)
  {
    assert forall i :: 0 <= i < 6 ==> Applied(c, base).amounts[i] == Tightened(c[i], base.amounts[i]);
  }

  ghost predicate DigestsAreNotFields(schema: Schema)
  {
    forall p: Package :: schema.digest(p).Some? ==> schema.digest(p).value !in CEILING_FIELDS
  }

  /** With the final check included: where two renderings in a row succeed, so does the single one,
      with the same manifest, selection and evidence budget. */
  lemma CheckedRenderingsCompose(base: Package, first: Profile, second: Profile, schema: Schema)
    requires DigestBlind(schema) && DigestsAreNotFields(schema)
    requires Render(base, first, schema).Ok? && Render(Render(base, first, schema).value.manifest, second, schema).Ok?
    ensures Render(base, Both(first, second), schema) ==
            Ok(Render(Render(base, first, schema).value.manifest, second, schema).value.(baseId := base.id, baseDigest := base.digest))
  {
    hide Dump;
    hide Selected;
    hide NewKeys;
    hide DigestBlind;
    hide ComponentRepeatsAgree;
    hide TierRepeatsAgree;
    RenderingsCompose(base, first, second, schema);
    var both := Both(first, second);
    var m1 := Render(base, first, schema).value.manifest;
    var m := Reduce(base, both, schema).value.manifest;
    assert KeepsNoneWidened(base, both) by {
      KeptAreNotWidened(base, both, m, m1);
    }
    RepeatsStillAgree(base, first, second, schema);
    forall s | s in NewKeys(both.ceiling, base.maximum)
      ensures s == m.digest || Occurs(s, Dump(base))
    {
      NewKeysOccur(base, both, m.digest, s);
      assert s == m.digest || Occurs(s, Dump(m1));
      NewKeysAreFields(both.ceiling, base.maximum, s);
    }
    RenderPassesIff(base, both, schema);
  }

  /** Keeping less keeps the agreement of repeated ids. */
  lemma RepeatsStillAgree(base: Package, first: Profile, second: Profile, schema: Schema)
    requires Render(base, first, schema).Ok? && Reduce(Render(base, first, schema).value.manifest, second, schema).Ok?
    ensures ComponentRepeatsAgree(base, Both(first, second)) && TierRepeatsAgree(base, Both(first, second))
  {
    RenderPassesIff(base, first, schema);
    var m1 := Render(base, first, schema).value.manifest;
    assert Elements(second.components) <= Elements(first.components) && Elements(second.surfaces) <= Elements(first.surfaces) by {
      hide *;
      SecondSelectsLess(base, first, second, schema);
    }
    SmallerRepeatsAgree(base, first, Both(first, second));
  }

  lemma SecondSelectsLess(base: Package, first: Profile, second: Profile, schema: Schema)
    requires Render(base, first, schema).Ok? && Reduce(Render(base, first, schema).value.manifest, second, schema).Ok?
    ensures Elements(second.components) <= Elements(first.components) && Elements(second.surfaces) <= Elements(first.surfaces)
  {
    hide IsReduction;
    KeptIds(base.components, Elements(first.components), Elements(first.surfaces));
  }

  lemma SmallerRepeatsAgree(base: Package, first: Profile, both: Profile)
    requires ComponentRepeatsAgree(base, first) && TierRepeatsAgree(base, first)
    requires Elements(both.components) <= Elements(first.components) && Elements(both.surfaces) <= Elements(first.surfaces)
    requires exists c: Ceiling :: both.ceiling == BothCeilings(first.ceiling, c)
    ensures ComponentRepeatsAgree(base, both) && TierRepeatsAgree(base, both)
  {
    var c: Ceiling :| both.ceiling == BothCeilings(first.ceiling, c);
    CeilingsCompose(first.ceiling, c, base.maximum);
    CeilingsCompose(first.ceiling, c, Applied(first.ceiling, base.maximum));
    forall ss: seq<Surface>
      ensures Ports(KeepSurfaces(ss, Elements(both.surfaces))) <= Ports(KeepSurfaces(ss, Elements(first.surfaces)))
    {
      SurfacesCompose(ss, Elements(first.surfaces), Elements(both.surfaces));
      KeptPorts(KeepSurfaces(ss, Elements(first.surfaces)), Elements(both.surfaces));
    }
  }

  lemma NewKeysAreFields(c: Ceiling, base: Budget, s: string)
    requires s in NewKeys(c, base)
    ensures s in CEILING_FIELDS
  {
  }

  lemma KeptAreNotWidened(base: Package, o: Profile, m: Package, other: Package)
    requires m.components == Selected(base, o).components
    requires forall i :: 0 <= i < |m.components| ==> ComponentReduces(m.components[i], other.components)
    ensures KeepsNoneWidened(base, o)
  {
    forall j | 0 <= j < |base.components| && base.components[j].id in Elements(o.components)
      ensures !base.components[j].privileged && !base.components[j].hostNetwork
    {
      var kept := Trim(base.components[j], Elements(o.surfaces));
      KeptIffSelected(base.components, Elements(o.components), Elements(o.surfaces), kept);
      var i :| 0 <= i < |m.components| && m.components[i] == kept;
      assert ComponentReduces(m.components[i], other.components);
    }
  }

  const FREE := Budget([Null, Null, Null, Null, Null, Null], [])
  const WEB := Component("web", "image", true, [], false, false, true, [])
  const TIERS := [Tier("t", ["web"], FREE, []), Tier("t", [], FREE, [])]
  const REPEATING := Package("p", "d", [WEB], [], FREE, TIERS, FREE, [], Other, [])
  const KEEP_ALL := Profile("lite", "p", "d", ["web"], [], [], [None, None, None, None, None, None], Evidence(1, 1, 1))

  lemma AllTiersSurvive(keep: set<string>, cap: Budget)
    requires keep == {"web"} && cap == Applied(KEEP_ALL.ceiling, FREE)
    ensures Surviving(TIERS, keep, cap) == TIERS
  {
    assert Elements(TIERS[0].includes) <= keep && Elements(TIERS[1].includes) <= keep;
    assert TIERS[..1] == [TIERS[0]] && TIERS[..1][..0] == [];
    assert Surviving([], keep, cap) == [];
    assert Surviving(TIERS[..1], keep, cap) == [TIERS[0]];
  }

  /** So a tier that survives and includes what the last tier of its id does not is refused, although
      the profile may drop and widen nothing. */
  lemma RepeatedTierRefused(base: Package, o: Profile, schema: Schema, i: nat, j: nat)
    requires Reduce(base, o, schema).Ok?
    requires i < j && LastTier(base.tiers, j) && base.tiers[i].id == base.tiers[j].id
    requires Survives(base.tiers[i], Elements(o.components), Applied(o.ceiling, base.maximum))
    requires !(Elements(base.tiers[i].includes) <= Elements(base.tiers[j].includes))
    ensures Render(base, o, schema) == Err(NotAReduction)
  {
    hide Reduce;
    hide IsReduction;
    hide Survives;
    RenderPassesIff(base, o, schema);
  }

  /** Such a package and profile. */
  lemma RepeatedTierExists(schema: Schema)
    requires schema.valid(REPEATING) && schema.digest(Selected(REPEATING, KEEP_ALL)).Some?
    ensures Reduce(REPEATING, KEEP_ALL, schema).Ok? && KeepsNoneWidened(REPEATING, KEEP_ALL)
    ensures Elements(KEEP_ALL.components) == ComponentIds(REPEATING.components)
    ensures Render(REPEATING, KEEP_ALL, schema) == Err(NotAReduction)
  {
    hide Dump;
    hide KeepComponents;
    hide Surviving;
    var keep := Elements(KEEP_ALL.components);
    assert keep == {"web"} by { assert KEEP_ALL.components[0] == "web"; }
    assert ComponentIds(REPEATING.components) == {"web"} by { assert REPEATING.components[0] == WEB; }
    AllTiersSurvive(keep, Applied(KEEP_ALL.ceiling, FREE));
    assert "web" in Elements(TIERS[0].includes) by { assert TIERS[0].includes[0] == "web"; }
    RepeatedTierRefused(REPEATING, KEEP_ALL, schema, 0, 1);
  }
}
