/** What a selection of service, staff member, variant and add-ons amounts to: its length,
    buffers and price. */
module ServiceProfile {
  import opened Wrappers
  import opened AddonIds
  import Text

  datatype Terms = Terms(durationMin: int, priceCents: int, bufferBeforeMin: int, bufferAfterMin: int)

  datatype Overrides = Overrides(durationMin: Option<int>, priceCents: Option<int>,
                                 bufferBeforeMin: Option<int>, bufferAfterMin: Option<int>)

  datatype Listing = Listing(archived: bool, isPublic: bool, online: bool)

  datatype Service = Service(businessId: string, name: string, currency: string, active: bool, listing: Listing, terms: Terms)

  datatype Staff = Staff(businessId: string, active: bool)

  datatype Assignment = Assignment(active: bool, online: bool, overrides: Overrides)

  /** A variant or an add-on of a service. */
  datatype Extra = Extra(serviceId: string, name: string, listing: Listing, terms: Terms)

  /** Assignments are unique per service and staff member. */
  datatype Catalogue = Catalogue(services: map<string, Service>, businesses: set<string>, staff: map<string, Staff>,
                                 assignments: map<(string, string), Assignment>, variants: map<string, Extra>,
                                 addons: map<string, Extra>)

  /** A selection apart from its add-ons. */
  datatype Selection = Selection(businessId: string, serviceId: string, staffId: string, variantId: Option<string>,
                                 requireOnline: bool)

  datatype Profile = Profile(serviceName: string, currency: string, variantName: Option<string>, addonIds: seq<string>,
                             addons: seq<Extra>, terms: Terms, totalMin: int)

  datatype Error = ServiceNotFound | BusinessNotFound | StaffNotFound | NotAssigned | VariantUnavailable | AddonUnavailable

  predicate Listed(listing: Listing, requireOnline: bool) {
    !listing.archived && (requireOnline ==> listing.isPublic && listing.online)
  }

  predicate ServiceFound(cat: Catalogue, sel: Selection) {
    && sel.serviceId in cat.services
    && cat.services[sel.serviceId].businessId == sel.businessId
    && cat.services[sel.serviceId].active
    && Listed(cat.services[sel.serviceId].listing, sel.requireOnline)
  }

  predicate StaffFound(cat: Catalogue, sel: Selection) {
    sel.staffId in cat.staff && cat.staff[sel.staffId].businessId == sel.businessId && cat.staff[sel.staffId].active
  }

  predicate Assigned(cat: Catalogue, sel: Selection) {
    var k := (sel.serviceId, sel.staffId);
    k in cat.assignments && cat.assignments[k].active && (sel.requireOnline ==> cat.assignments[k].online)
  }

  /** An empty variant id asks for no variant. */
  predicate WantsVariant(sel: Selection) {
    sel.variantId.Some? && sel.variantId.value != ""
  }

  predicate Offered(extras: map<string, Extra>, id: string, sel: Selection) {
    id in extras && extras[id].serviceId == sel.serviceId && Listed(extras[id].listing, sel.requireOnline)
  }

  function Or(override: Option<int>, otherwise: int): int {
    if override.Some? then override.value else otherwise
  }

  function Overridden(base: Terms, o: Overrides): Terms {
    Terms(Or(o.durationMin, base.durationMin), Or(o.priceCents, base.priceCents),
          Or(o.bufferBeforeMin, base.bufferBeforeMin), Or(o.bufferAfterMin, base.bufferAfterMin))
  }

  function Plus(a: Terms, b: Terms): Terms {
    Terms(a.durationMin + b.durationMin, a.priceCents + b.priceCents,
          a.bufferBeforeMin + b.bufferBeforeMin, a.bufferAfterMin + b.bufferAfterMin)
  }

  function Sum(extras: seq<Extra>): Terms {
    if extras == [] then Terms(0, 0, 0, 0)
    else Plus(extras[0].terms, Sum(extras[1..]))
  }

  function TotalMin(t: Terms): int {
    t.durationMin + t.bufferBeforeMin + t.bufferAfterMin
  }

  /** The fetched rows in the order of the ids; an id that was not fetched is an error. */
  function RowsById(addons: map<string, Extra>, fetched: set<string>, ids: seq<string>): Result<seq<Extra>, Error>
    requires fetched <= addons.Keys
  {
    if ids == [] then Ok([])
    else if ids[0] !in fetched then Err(AddonUnavailable)
    else
      var rest := RowsById(addons, fetched, ids[1..]);
      if rest.Err? then rest else Ok([addons[ids[0]]] + rest.value)
  }

  function ResolveAddons(cat: Catalogue, sel: Selection, ids: seq<string>): Result<seq<Extra>, Error> {
    var fetched := set id | id in ids && Offered(cat.addons, id, sel);
    if |fetched| != |ids| then Err(AddonUnavailable) else RowsById(cat.addons, fetched, ids)
  }

  /** What the staff member's assignment, the variant and the service say, in that order. */
  function BaseTerms(cat: Catalogue, sel: Selection): Terms
    requires ServiceFound(cat, sel) && Assigned(cat, sel)
    requires WantsVariant(sel) ==> Offered(cat.variants, sel.variantId.value, sel)
  {
    var base := if WantsVariant(sel) then cat.variants[sel.variantId.value].terms else cat.services[sel.serviceId].terms;
    Overridden(base, cat.assignments[(sel.serviceId, sel.staffId)].overrides)
  }

  function ResolveForSelection(cat: Catalogue, sel: Selection, addonIds: seq<string>): Result<Profile, Error> {
    var ids := NormalizeAddonIds(addonIds);
    if !ServiceFound(cat, sel) then Err(ServiceNotFound)
    else if sel.businessId !in cat.businesses then Err(BusinessNotFound)
    else if !StaffFound(cat, sel) then Err(StaffNotFound)
    else if !Assigned(cat, sel) then Err(NotAssigned)
    else if WantsVariant(sel) && !Offered(cat.variants, sel.variantId.value, sel) then Err(VariantUnavailable) else
    var addons := if ids == [] then Ok([]) else ResolveAddons(cat, sel, ids);
    if addons.Err? then Err(addons.error) else
    var terms := Plus(BaseTerms(cat, sel), Sum(addons.value));
    Ok(Profile(cat.services[sel.serviceId].name, cat.services[sel.serviceId].currency,
               if WantsVariant(sel) then Some(cat.variants[sel.variantId.value].name) else None,
               ids, addons.value, terms, TotalMin(terms)))
  }

  lemma SameAddons(cat: Catalogue, a: Selection, b: Selection, ids: seq<string>)
    requires a.serviceId == b.serviceId && a.requireOnline == b.requireOnline
    ensures ResolveAddons(cat, a, ids) == ResolveAddons(cat, b, ids)
  {
    assert (set id | id in ids && Offered(cat.addons, id, a)) == (set id | id in ids && Offered(cat.addons, id, b));
  }

  /** Whether and why a choice fails does not depend on which of its staff is chosen. */
  lemma ChoiceResolvesAlike(cat: Catalogue, a: Selection, b: Selection, addonIds: seq<string>)
    requires b == a.(staffId := b.staffId)
    requires StaffFound(cat, a) && Assigned(cat, a) && StaffFound(cat, b) && Assigned(cat, b)
    ensures var x, y := ResolveForSelection(cat, a, addonIds), ResolveForSelection(cat, b, addonIds);
            x.Ok? == y.Ok? && (x.Err? ==> x.error == y.error)
  {
    SameAddons(cat, a, b, NormalizeAddonIds(addonIds));
  }

  ghost predicate AllOffered(cat: Catalogue, sel: Selection, ids: seq<string>) {
    forall id | id in ids :: Offered(cat.addons, id, sel)
  }

  function Members(ids: seq<string>): set<string> {
    set id | id in ids
  }

  lemma {:induction false} DistinctCount(ids: seq<string>)
    requires Ascending(ids)
    ensures |Members(ids)| == |ids|
  {
    if ids == [] {
      assert Members(ids) == {};
    } else {
      DistinctCount(ids[1..]);
      assert ids == [ids[0]] + ids[1..];
      assert Members(ids) == {ids[0]} + Members(ids[1..]);
      assert ids[0] !in ids[1..];
    }
  }

  function RowsOf(addons: map<string, Extra>, ids: seq<string>): (r: seq<Extra>)
    requires forall id | id in ids :: id in addons
    ensures |r| == |ids|
  {
    seq(|ids|, i requires 0 <= i < |ids| => addons[ids[i]])
  }

  lemma {:induction false} RowsFound(addons: map<string, Extra>, fetched: set<string>, ids: seq<string>)
    requires fetched <= addons.Keys && forall id | id in ids :: id in fetched
    ensures RowsById(addons, fetched, ids) == Ok(RowsOf(addons, ids))
  {
    if ids == [] {
    } else {
      assert ids == [ids[0]] + ids[1..];
      RowsFound(addons, fetched, ids[1..]);
      assert RowsOf(addons, ids) == [addons[ids[0]]] + RowsOf(addons, ids[1..]);
    }
  }

  /** Counting the fetched rows decides availability, because the ids carry no repeats; and
      once the count agrees, every id has its row. */
  lemma CountTestComplete(cat: Catalogue, sel: Selection, ids: seq<string>)
    requires Ascending(ids)
    ensures ResolveAddons(cat, sel, ids).Ok? <==> AllOffered(cat, sel, ids)
    ensures AllOffered(cat, sel, ids) ==> ResolveAddons(cat, sel, ids) == Ok(RowsOf(cat.addons, ids))
  {
    var fetched := set id | id in ids && Offered(cat.addons, id, sel);
    DistinctCount(ids);
    assert fetched <= Members(ids);
    if AllOffered(cat, sel, ids) {
      assert fetched == Members(ids);
      RowsFound(cat.addons, fetched, ids);
    }
    if |fetched| == |ids| {
      SameSize(fetched, Members(ids));
      forall id | id in ids ensures Offered(cat.addons, id, sel) {
        assert id in Members(ids);
      }
    }
  }

  lemma SameSize(a: set<string>, b: set<string>)
    requires a <= b && |a| == |b|
    ensures a == b
  {
    assert |b - a| == |b| - |a|;
    assert b == a + (b - a);
  }

  /** A selection resolves exactly when each of its parts can be had: the rows exist, belong to
      the business or the service, are active or not archived, and can be booked online where
      that is asked for. The written form of the add-on list does not enter. */
  lemma ResolvesWhen(cat: Catalogue, sel: Selection, addonIds: seq<string>)
    ensures var shown := (listing: Listing) =>
              listing.archived == false && (sel.requireOnline ==> listing.isPublic == true && listing.online == true);
            var part := (extras: map<string, Extra>, id: string) =>
              id in extras && extras[id].serviceId == sel.serviceId && shown(extras[id].listing);
            ResolveForSelection(cat, sel, addonIds).Ok? <==>
            && sel.serviceId in cat.services && cat.services[sel.serviceId].businessId == sel.businessId
            && cat.services[sel.serviceId].active && shown(cat.services[sel.serviceId].listing)
            && sel.businessId in cat.businesses
            && sel.staffId in cat.staff && cat.staff[sel.staffId].businessId == sel.businessId && cat.staff[sel.staffId].active
            && (sel.serviceId, sel.staffId) in cat.assignments && cat.assignments[(sel.serviceId, sel.staffId)].active
            && (sel.requireOnline ==> cat.assignments[(sel.serviceId, sel.staffId)].online)
            && (sel.variantId == None || sel.variantId == Some("") || part(cat.variants, sel.variantId.value))
            && forall id | id in Parts(addonIds) :: part(cat.addons, id)
  {
    var ids := NormalizeAddonIds(addonIds);
    NormalForm(addonIds);
    CountTestComplete(cat, sel, ids);
    assert AllOffered(cat, sel, ids) <==> AllOffered(cat, sel, Parts(addonIds));
  }

  /** Why a selection does not resolve: the first part that cannot be had, in the order in which
      the code asks. */
  lemma FailsBecause(cat: Catalogue, sel: Selection, addonIds: seq<string>)
    requires ResolveForSelection(cat, sel, addonIds).Err?
    ensures var shown := (listing: Listing) =>
              listing.archived == false && (sel.requireOnline ==> listing.isPublic == true && listing.online == true);
            var part := (extras: map<string, Extra>, id: string) =>
              id in extras && extras[id].serviceId == sel.serviceId && shown(extras[id].listing);
            ResolveForSelection(cat, sel, addonIds).error ==
              if sel.serviceId !in cat.services || cat.services[sel.serviceId].businessId != sel.businessId
                 || !cat.services[sel.serviceId].active || !shown(cat.services[sel.serviceId].listing) then ServiceNotFound
              else if sel.businessId !in cat.businesses then BusinessNotFound
              else if sel.staffId !in cat.staff || cat.staff[sel.staffId].businessId != sel.businessId
                      || !cat.staff[sel.staffId].active then StaffNotFound
              else if (sel.serviceId, sel.staffId) !in cat.assignments || !cat.assignments[(sel.serviceId, sel.staffId)].active
                      || (sel.requireOnline && !cat.assignments[(sel.serviceId, sel.staffId)].online) then NotAssigned
              else if sel.variantId.Some? && sel.variantId.value != "" && !part(cat.variants, sel.variantId.value)
                then VariantUnavailable
              else AddonUnavailable
  {
    var ids := NormalizeAddonIds(addonIds);
    var fetched := set id | id in ids && Offered(cat.addons, id, sel);
    RowsByIdError(cat.addons, fetched, ids);
  }

  lemma {:induction false} RowsByIdError(addons: map<string, Extra>, fetched: set<string>, ids: seq<string>)
    requires fetched <= addons.Keys
    ensures RowsById(addons, fetched, ids).Err? ==> RowsById(addons, fetched, ids).error == AddonUnavailable
  {
    if ids != [] {
      RowsByIdError(addons, fetched, ids[1..]);
    }
  }

  lemma ResolvesWhenOffered(cat: Catalogue, sel: Selection, addonIds: seq<string>)
    ensures ResolveForSelection(cat, sel, addonIds).Ok? <==>
            && ServiceFound(cat, sel) && sel.businessId in cat.businesses && StaffFound(cat, sel) && Assigned(cat, sel)
            && (WantsVariant(sel) ==> Offered(cat.variants, sel.variantId.value, sel))
            && AllOffered(cat, sel, Parts(addonIds))
  {
    ResolvesWhen(cat, sel, addonIds);
  }

  /** Order and repeats of the add-ons cannot matter. */
  lemma AddonOrderIrrelevant(cat: Catalogue, sel: Selection, addonIds: seq<string>, other: seq<string>)
    requires SameChoice(addonIds, other)
    ensures ResolveForSelection(cat, sel, addonIds) == ResolveForSelection(cat, sel, other)
  {
    OnlyMembersMatter(addonIds, other);
  }

  /** Resolving an already normalized list of the same choice. */
  lemma NormalizedResolvesAlike(cat: Catalogue, sel: Selection, raw: seq<string>, addonIds: seq<string>)
    requires SameChoice(raw, addonIds)
    ensures ResolveForSelection(cat, sel, NormalizeAddonIds(raw)) == ResolveForSelection(cat, sel, addonIds)
  {
    NormalizeTwice(raw);
    OnlyMembersMatter(raw, addonIds);
  }

  lemma {:induction false} SumInsert(addons: map<string, Extra>, x: string, ids: seq<string>)
    requires x in addons && forall id | id in ids :: id in addons
    ensures Sum(RowsOf(addons, Insert(x, ids))) == Plus(addons[x].terms, Sum(RowsOf(addons, ids)))
  {
    var inserted := Insert(x, ids);
    assert RowsOf(addons, inserted)[1..] == RowsOf(addons, inserted[1..]);
    if ids == [] || Text.AtMost(x, ids[0]) {
      assert inserted[1..] == ids;
    } else {
      assert ids == [ids[0]] + ids[1..];
      assert inserted[1..] == Insert(x, ids[1..]);
      assert RowsOf(addons, ids)[1..] == RowsOf(addons, ids[1..]);
      SumInsert(addons, x, ids[1..]);
    }
  }

  lemma {:induction false} PartsConcat(a: seq<string>, b: seq<string>)
    ensures Parts(a + b) == Parts(a) + Parts(b)
  {
    if a == [] {
      assert a + b == b;
    } else {
      assert (a + b)[1..] == a[1..] + b;
      PartsConcat(a[1..], b);
    }
  }

  lemma TermsWhenResolved(cat: Catalogue, sel: Selection, addonIds: seq<string>)
    requires ResolveForSelection(cat, sel, addonIds).Ok?
    ensures Ascending(NormalizeAddonIds(addonIds)) && AllOffered(cat, sel, NormalizeAddonIds(addonIds))
    ensures ServiceFound(cat, sel) && Assigned(cat, sel)
    ensures WantsVariant(sel) ==> Offered(cat.variants, sel.variantId.value, sel)
    ensures ResolveForSelection(cat, sel, addonIds).value.terms ==
            Plus(BaseTerms(cat, sel), Sum(RowsOf(cat.addons, NormalizeAddonIds(addonIds))))
    ensures ResolveForSelection(cat, sel, addonIds).value.totalMin == TotalMin(ResolveForSelection(cat, sel, addonIds).value.terms)
  {
    NormalForm(addonIds);
    CountTestComplete(cat, sel, NormalizeAddonIds(addonIds));
  }

  /** The assignment's override wins over the variant, the variant over the service, field by
      field; the add-ons come on top. */
  lemma TermsByPriority(cat: Catalogue, sel: Selection, addonIds: seq<string>)
    requires ResolveForSelection(cat, sel, addonIds).Ok?
    ensures ServiceFound(cat, sel) && Assigned(cat, sel)
    ensures WantsVariant(sel) ==> Offered(cat.variants, sel.variantId.value, sel)
    ensures var profile := ResolveForSelection(cat, sel, addonIds).value;
            var o := cat.assignments[(sel.serviceId, sel.staffId)].overrides;
            var base := if WantsVariant(sel) then cat.variants[sel.variantId.value].terms else cat.services[sel.serviceId].terms;
            var extra := Sum(profile.addons);
            && profile.terms.durationMin - extra.durationMin == (if o.durationMin.Some? then o.durationMin.value else base.durationMin)
            && profile.terms.priceCents - extra.priceCents == (if o.priceCents.Some? then o.priceCents.value else base.priceCents)
            && profile.terms.bufferBeforeMin - extra.bufferBeforeMin
               == (if o.bufferBeforeMin.Some? then o.bufferBeforeMin.value else base.bufferBeforeMin)
            && profile.terms.bufferAfterMin - extra.bufferAfterMin
               == (if o.bufferAfterMin.Some? then o.bufferAfterMin.value else base.bufferAfterMin)
            && profile.totalMin == profile.terms.durationMin + profile.terms.bufferBeforeMin + profile.terms.bufferAfterMin
  {
    TermsWhenResolved(cat, sel, addonIds);
    CountTestComplete(cat, sel, NormalizeAddonIds(addonIds));
  }

  /** A profile names the service and the variant, and lists the rows of the add-ons in the
      canonical order of their ids. */
  lemma PartsAreNamed(cat: Catalogue, sel: Selection, addonIds: seq<string>)
    requires ResolveForSelection(cat, sel, addonIds).Ok?
    ensures sel.serviceId in cat.services && (WantsVariant(sel) ==> sel.variantId.value in cat.variants)
    ensures var profile := ResolveForSelection(cat, sel, addonIds).value;
            && profile.serviceName == cat.services[sel.serviceId].name && profile.currency == cat.services[sel.serviceId].currency
            && profile.variantName == (if WantsVariant(sel) then Some(cat.variants[sel.variantId.value].name) else None)
            && profile.addonIds == NormalizeAddonIds(addonIds) && |profile.addons| == |profile.addonIds|
            && forall i | 0 <= i < |profile.addons| ::
                 profile.addonIds[i] in cat.addons && profile.addons[i] == cat.addons[profile.addonIds[i]]
  {
    var ids := NormalizeAddonIds(addonIds);
    TermsWhenResolved(cat, sel, addonIds);
    CountTestComplete(cat, sel, ids);
    forall i | 0 <= i < |ids| ensures ids[i] in cat.addons && RowsOf(cat.addons, ids)[i] == cat.addons[ids[i]] {
      assert ids[i] in ids;
    }
  }

  predicate FullyOverridden(o: Overrides) {
    o.durationMin.Some? && o.priceCents.Some? && o.bufferBeforeMin.Some? && o.bufferAfterMin.Some?
  }

  /** Choosing another variant, or none, moves only what the assignment leaves open; a fully
      overridden assignment hides the variant altogether. */
  lemma OverridesHideVariant(cat: Catalogue, sel: Selection, variantId: Option<string>, addonIds: seq<string>)
    requires ResolveForSelection(cat, sel, addonIds).Ok?
    requires ResolveForSelection(cat, sel.(variantId := variantId), addonIds).Ok?
    ensures Assigned(cat, sel)
    ensures var before := ResolveForSelection(cat, sel, addonIds).value;
            var after := ResolveForSelection(cat, sel.(variantId := variantId), addonIds).value;
            var o := cat.assignments[(sel.serviceId, sel.staffId)].overrides;
            && after.addons == before.addons
            && (o.durationMin.Some? ==> after.terms.durationMin == before.terms.durationMin)
            && (o.priceCents.Some? ==> after.terms.priceCents == before.terms.priceCents)
            && (o.bufferBeforeMin.Some? ==> after.terms.bufferBeforeMin == before.terms.bufferBeforeMin)
            && (o.bufferAfterMin.Some? ==> after.terms.bufferAfterMin == before.terms.bufferAfterMin)
            && (FullyOverridden(o) ==> after.terms == before.terms && after.totalMin == before.totalMin)
  {
    var other := sel.(variantId := variantId);
    TermsByPriority(cat, sel, addonIds);
    TermsByPriority(cat, other, addonIds);
    SameAddons(cat, sel, other, NormalizeAddonIds(addonIds));
  }

  /** While a variant is chosen, editing the service's own length, buffers and price changes
      no profile; without one, it changes exactly the fields that the assignment leaves open,
      by as much as was edited. */
  lemma VariantHidesService(cat: Catalogue, sel: Selection, terms: Terms, addonIds: seq<string>)
    requires ResolveForSelection(cat, sel, addonIds).Ok?
    ensures ServiceFound(cat, sel) && Assigned(cat, sel)
    ensures var service := cat.services[sel.serviceId];
            var edited := cat.(services := cat.services[sel.serviceId := service.(terms := terms)]);
            var before, after := ResolveForSelection(cat, sel, addonIds), ResolveForSelection(edited, sel, addonIds);
            var o := cat.assignments[(sel.serviceId, sel.staffId)].overrides;
            && after.Ok?
            && (WantsVariant(sel) || FullyOverridden(o) ==> after == before)
            && (!WantsVariant(sel) ==>
                  && after.value.terms.durationMin - before.value.terms.durationMin
                     == (if o.durationMin.Some? then 0 else terms.durationMin - service.terms.durationMin)
                  && after.value.terms.priceCents - before.value.terms.priceCents
                     == (if o.priceCents.Some? then 0 else terms.priceCents - service.terms.priceCents)
                  && after.value.terms.bufferBeforeMin - before.value.terms.bufferBeforeMin
                     == (if o.bufferBeforeMin.Some? then 0 else terms.bufferBeforeMin - service.terms.bufferBeforeMin)
                  && after.value.terms.bufferAfterMin - before.value.terms.bufferAfterMin
                     == (if o.bufferAfterMin.Some? then 0 else terms.bufferAfterMin - service.terms.bufferAfterMin))
  {
    var service := cat.services[sel.serviceId];
    var edited := cat.(services := cat.services[sel.serviceId := service.(terms := terms)]);
    var ids := NormalizeAddonIds(addonIds);
    assert ResolveAddons(edited, sel, ids) == ResolveAddons(cat, sel, ids);
    assert ServiceFound(edited, sel) && StaffFound(edited, sel) && Assigned(edited, sel);
    TermsByPriority(cat, sel, addonIds);
    TermsByPriority(edited, sel, addonIds);
  }

  lemma NormalWithOneMore(addonIds: seq<string>, x: string)
    requires IsAddonId(x)
    ensures forall y :: y in Parts(addonIds + [x]) <==> y == x || y in Parts(addonIds)
    ensures x !in Parts(addonIds) ==> NormalizeAddonIds(addonIds + [x]) == Insert(x, NormalizeAddonIds(addonIds))
  {
    PartsConcat(addonIds, [x]);
    PartsOfIds([x]);
    NormalForm(addonIds);
    NormalForm(addonIds + [x]);
    if x !in Parts(addonIds) {
      InsertAscends(x, NormalizeAddonIds(addonIds));
      AscendingIsCanonical(Insert(x, NormalizeAddonIds(addonIds)), NormalizeAddonIds(addonIds + [x]));
    }
  }

  lemma OneMoreResolves(cat: Catalogue, sel: Selection, addonIds: seq<string>, x: string)
    requires ResolveForSelection(cat, sel, addonIds).Ok? && IsAddonId(x) && Offered(cat.addons, x, sel)
    ensures ResolveForSelection(cat, sel, addonIds + [x]).Ok?
  {
    ResolvesWhenOffered(cat, sel, addonIds);
    ResolvesWhenOffered(cat, sel, addonIds + [x]);
    assert AllOffered(cat, sel, Parts(addonIds + [x])) by {
      NormalWithOneMore(addonIds, x);
    }
  }

  lemma OneMoreTerm(cat: Catalogue, sel: Selection, ids: seq<string>, x: string, base: Terms)
    requires AllOffered(cat, sel, ids) && Offered(cat.addons, x, sel) && AllOffered(cat, sel, Insert(x, ids))
    ensures Plus(base, Sum(RowsOf(cat.addons, Insert(x, ids)))) == Plus(Plus(base, Sum(RowsOf(cat.addons, ids))), cat.addons[x].terms)
  {
    SumInsert(cat.addons, x, ids);
  }

  /** One more add-on adds exactly its own length, price and buffers, wherever the canonical
      order puts it; an add-on already chosen adds nothing. */
  lemma OneMoreAddon(cat: Catalogue, sel: Selection, addonIds: seq<string>, x: string)
    requires ResolveForSelection(cat, sel, addonIds).Ok? && IsAddonId(x) && Offered(cat.addons, x, sel)
    ensures var plain := ResolveForSelection(cat, sel, addonIds).value;
            var more := ResolveForSelection(cat, sel, addonIds + [x]);
            if x in Parts(addonIds) then more == Ok(plain)
            else
              var extra := cat.addons[x].terms;
              && more.Ok?
              && more.value.terms.durationMin == plain.terms.durationMin + extra.durationMin
              && more.value.terms.priceCents == plain.terms.priceCents + extra.priceCents
              && more.value.terms.bufferBeforeMin == plain.terms.bufferBeforeMin + extra.bufferBeforeMin
              && more.value.terms.bufferAfterMin == plain.terms.bufferAfterMin + extra.bufferAfterMin
              && more.value.totalMin == plain.totalMin + extra.durationMin + extra.bufferBeforeMin + extra.bufferAfterMin
  {
    if x in Parts(addonIds) {
      assert SameChoice(addonIds, addonIds + [x]) by {
        NormalWithOneMore(addonIds, x);
      }
      AddonOrderIrrelevant(cat, sel, addonIds, addonIds + [x]);
    } else {
      OneMoreResolves(cat, sel, addonIds, x);
      TermsWhenResolved(cat, sel, addonIds);
      TermsWhenResolved(cat, sel, addonIds + [x]);
      var ids := NormalizeAddonIds(addonIds);
      assert NormalizeAddonIds(addonIds + [x]) == Insert(x, ids) by {
        NormalWithOneMore(addonIds, x);
      }
      OneMoreTerm(cat, sel, ids, x, BaseTerms(cat, sel));
    }
  }
}
