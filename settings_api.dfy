/** The settings endpoint (pages/api/settings.ts): a name -> value upsert into
    the settings collection and, when the name is `coupons`, a reconciliation
    of the payment platform's coupons with the desired coupon table.

    The payment platform is modelled as an abstract store (`CouponPlatform`)
    holding its coupons and promotion codes; the product catalogue is a
    parameter. The pure function `Reconcile` is the specification of the
    handler's two loops; `HandlePut` runs the loops against the store and is
    proved to end in the state `Reconcile` describes. */
module SettingsApi {
  import opened Common

  // ---------------------------------------------------------------------------
  // Data shapes.

  /** A desired coupon (`CouponType`). */
  datatype Coupon = Coupon(
    code: string,
    percentOff: Option<real>,
    amountOff: Option<real>,
    applyTo: string,
    product: string,
    category: string)

  /** A settings value: plain text or a number for the shop settings, or the
      coupon table (an object from key to coupon, keys in their order). */
  datatype Value = Text(s: string) | Number(n: real) | CouponTable(entries: seq<(string, Coupon)>)

  datatype SettingsRecord = SettingsRecord(name: string, value: Value)

  /** A product as the catalogue query sees it: its id and the `_id` and
      `parent` of its category snapshot. */
  datatype Product = Product(id: string, categoryId: Option<string>, categoryParent: Option<string>)

  /** The parameters of a coupon creation call (`Stripe.CouponCreateParams`). */
  datatype CouponParams = CouponParams(
    name: string,
    percentOff: Option<real>,
    amountOff: Option<real>,
    currency: Option<string>,
    appliesTo: Option<seq<string>>)

  /** A coupon held by the payment platform; `id` is assigned by the platform. */
  datatype ExternalCoupon = ExternalCoupon(id: nat, params: CouponParams)

  datatype PromotionCode = PromotionCode(coupon: nat, code: string)

  /** The payment platform's state; `nextId` is the id its next coupon gets. */
  datatype Platform = Platform(coupons: seq<ExternalCoupon>, promotionCodes: seq<PromotionCode>, nextId: nat)

  // ---------------------------------------------------------------------------
  // Settings records.

  /** `Settings.findOne({ name })`: the first record with that name. Like
      `FirstNamed` below and `PropertyResolver.FindIndex`, it is a first-match
      search written out on its own element type, so that each contract speaks
      of the field the source compares rather than of a predicate argument. */
  function FindSetting(records: seq<SettingsRecord>, name: string): (r: Option<nat>)
    ensures r.Some? ==> r.value < |records| && records[r.value].name == name
    ensures r.Some? ==> forall k :: 0 <= k < r.value ==> records[k].name != name
    ensures r.None? ==> forall k :: 0 <= k < |records| ==> records[k].name != name
  {
    if |records| == 0 then None
    else if records[0].name == name then Some(0)
    else match FindSetting(records[1..], name)
      case None => None
      case Some(k) => Some(k + 1)
  }

  function Lookup(records: seq<SettingsRecord>, name: string): Option<Value>
  {
    match FindSetting(records, name)
    case Some(i) => Some(records[i].value)
    case None => None
  }

  /** The PUT upsert: update the found record's value, or create one. */
  function UpsertRecords(records: seq<SettingsRecord>, name: string, value: Value): (r: seq<SettingsRecord>)
    ensures |r| == |records| + (if FindSetting(records, name).None? then 1 else 0)
  {
    match FindSetting(records, name)
    case Some(i) => records[i := SettingsRecord(name, value)]
    case None => records + [SettingsRecord(name, value)]
  }

  /** The first-match characterisation determines `FindSetting`. */
  lemma FindSettingIs(records: seq<SettingsRecord>, name: string, r: Option<nat>)
    requires r.Some? ==> r.value < |records| && records[r.value].name == name
    requires r.Some? ==> forall k :: 0 <= k < r.value ==> records[k].name != name
    requires r.None? ==> forall k :: 0 <= k < |records| ==> records[k].name != name
    ensures FindSetting(records, name) == r
  {
  }

  /** After an upsert the name reads back the new value and every other name
      reads what it read before. */
  lemma UpsertLookup(records: seq<SettingsRecord>, name: string, value: Value, other: string)
    ensures Lookup(UpsertRecords(records, name, value), name) == Some(value)
    ensures other != name ==> Lookup(UpsertRecords(records, name, value), other) == Lookup(records, other)
  {
    var r := UpsertRecords(records, name, value);
    match FindSetting(records, name)
    case Some(i) =>
      FindSettingIs(r, name, Some(i));
      FindSettingIs(r, other, FindSetting(records, other));
    case None =>
      FindSettingIs(r, name, Some(|records|));
      if other != name {
        FindSettingIs(r, other, FindSetting(records, other));
      }
  }

  /** The settings collection. */
  class SettingsStore {
    var records: seq<SettingsRecord>

    constructor (records: seq<SettingsRecord>)
      ensures this.records == records
    {
      this.records := records;
    }

    /** Lines 25-35: find the record; if there is one, set its value and save
        it, otherwise create `{ name, value }`. */
    method Put(name: string, value: Value)
      modifies this
      ensures records == UpsertRecords(old(records), name, value)
    {
      var found := FindSetting(records, name);
      if found.Some? {
        records := records[found.value := records[found.value].(value := value)];
      } else {
        records := records + [SettingsRecord(name, value)];
      }
    }
  }

  // ---------------------------------------------------------------------------
  // The payment platform.

  predicate HasId(coupons: seq<ExternalCoupon>, id: nat)
  {
    exists k :: 0 <= k < |coupons| && coupons[k].id == id
  }

  ghost predicate DistinctIds(coupons: seq<ExternalCoupon>)
  {
    forall a, b :: 0 <= a < b < |coupons| ==> coupons[a].id != coupons[b].id
  }

  ghost predicate DistinctNames(coupons: seq<ExternalCoupon>)
  {
    forall a, b :: 0 <= a < b < |coupons| ==> coupons[a].params.name != coupons[b].params.name
  }

  ghost predicate IdsBelow(coupons: seq<ExternalCoupon>, bound: nat)
  {
    forall k :: 0 <= k < |coupons| ==> coupons[k].id < bound
  }

  /** The platform's own invariant: ids are unique and below `nextId`. */
  ghost predicate ValidPlatform(p: Platform)
  {
    DistinctIds(p.coupons) && IdsBelow(p.coupons, p.nextId)
  }

  /** The coupons whose id is not in `ids`, in their order. */
  function RemoveIds(coupons: seq<ExternalCoupon>, ids: set<nat>): seq<ExternalCoupon>
  {
    if coupons == [] then []
    else (if coupons[0].id in ids then [] else [coupons[0]]) + RemoveIds(coupons[1..], ids)
  }

  /** `stripe.coupons.del(id)`: fails when no coupon has that id. */
  function DeleteCoupon(p: Platform, id: nat): Option<Platform>
  {
    if HasId(p.coupons, id) then Some(p.(coupons := RemoveIds(p.coupons, {id}))) else None
  }

  /** `stripe.coupons.create(params)`: a new coupon with the next id. */
  function CreateCoupon(p: Platform, params: CouponParams): Platform
  {
    p.(coupons := p.coupons + [ExternalCoupon(p.nextId, params)], nextId := p.nextId + 1)
  }

  function AddPromotionCode(p: Platform, couponId: nat, code: string): Platform
  {
    p.(promotionCodes := p.promotionCodes + [PromotionCode(couponId, code)])
  }

  /** How many coupons one call of `stripe.coupons.list` returns by default. */
  const PageSize: nat := 10

  /** `stripe.coupons.list({})`: one page, newest first. The platform stores
      its coupons oldest first (every create appends), so the page is the
      last `PageSize` coupons in reverse. */
  function Page(coupons: seq<ExternalCoupon>): (page: seq<ExternalCoupon>)
    ensures |page| == if |coupons| < PageSize then |coupons| else PageSize
    ensures forall i :: 0 <= i < |page| ==> page[i] == coupons[|coupons| - 1 - i]
  {
    var m := if |coupons| < PageSize then |coupons| else PageSize;
    seq(m, i requires 0 <= i < m => coupons[|coupons| - 1 - i])
  }

  lemma PageOfOne(a: ExternalCoupon)
    ensures Page([a]) == [a]
  {
  }

  lemma PageOfTwo(a: ExternalCoupon, b: ExternalCoupon)
    ensures Page([a, b]) == [b, a]
  {
  }

  /** The page keeps unique ids and names unique, and lists only coupons
      the platform holds. */
  lemma PageDistinct(coupons: seq<ExternalCoupon>)
    ensures DistinctIds(coupons) ==> DistinctIds(Page(coupons))
    ensures DistinctNames(coupons) ==> DistinctNames(Page(coupons))
    ensures forall id :: HasId(Page(coupons), id) ==> HasId(coupons, id)
  {
    var page := Page(coupons);
    forall id | HasId(page, id) ensures HasId(coupons, id) {
      var k :| 0 <= k < |page| && page[k].id == id;
      assert coupons[|coupons| - 1 - k].id == id;
    }
  }

  /** A platform with at most one page of coupons has all of them listed. */
  lemma PageHoldsAll(coupons: seq<ExternalCoupon>)
    requires |coupons| <= PageSize
    ensures forall k :: 0 <= k < |coupons| ==> coupons[k] == Page(coupons)[|coupons| - 1 - k]
  {
  }

  /** Past one page the oldest coupons are not listed at all. */
  lemma PageMissesOldest(coupons: seq<ExternalCoupon>, k: nat)
    requires DistinctIds(coupons) && k < |coupons| - PageSize
    ensures !HasId(Page(coupons), coupons[k].id)
  {
    var page := Page(coupons);
    forall j | 0 <= j < |page| ensures page[j].id != coupons[k].id {
      assert page[j] == coupons[|coupons| - 1 - j];
    }
  }

  /** The page lists only ids the platform has handed out. */
  lemma PageIdsBelow(coupons: seq<ExternalCoupon>, bound: nat)
    requires IdsBelow(coupons, bound)
    ensures IdsBelow(Page(coupons), bound)
  {
    var page := Page(coupons);
    forall j | 0 <= j < |page| ensures page[j].id < bound {
      assert page[j] == coupons[|coupons| - 1 - j];
    }
  }

  /** The payment platform as the handler talks to it. */
  class CouponPlatform {
    var coupons: seq<ExternalCoupon>
    var promotionCodes: seq<PromotionCode>
    var nextId: nat

    function State(): Platform
      reads this
    {
      Platform(coupons, promotionCodes, nextId)
    }

    constructor (p: Platform)
      ensures State() == p
    {
      coupons := p.coupons;
      promotionCodes := p.promotionCodes;
      nextId := p.nextId;
    }

    /** `stripe.coupons.list({})`: one page, newest first. */
    method List() returns (snapshot: seq<ExternalCoupon>)
      ensures |snapshot| <= PageSize && |snapshot| <= |coupons|
      ensures forall i :: 0 <= i < |snapshot| ==> snapshot[i] == coupons[|coupons| - 1 - i]
      ensures |coupons| <= PageSize ==> |snapshot| == |coupons|
      ensures snapshot == Page(coupons)
    {
      snapshot := Page(coupons);
    }

    /** `stripe.coupons.del(id)`; `ok` is false when the call throws. */
    method Delete(id: nat) returns (ok: bool)
      modifies this
      ensures ok <==> DeleteCoupon(old(State()), id).Some?
      ensures ok ==> State() == DeleteCoupon(old(State()), id).value
      ensures !ok ==> State() == old(State())
    {
      ok := HasId(coupons, id);
      if ok {
        coupons := RemoveIds(coupons, {id});
      }
    }

    /** `stripe.coupons.create(params)`. */
    method Create(params: CouponParams) returns (coupon: ExternalCoupon)
      modifies this
      ensures State() == CreateCoupon(old(State()), params)
      ensures coupon == ExternalCoupon(old(nextId), params)
    {
      coupon := ExternalCoupon(nextId, params);
      coupons := coupons + [coupon];
      nextId := nextId + 1;
    }

    /** `stripe.promotionCodes.create({ coupon, code })`. */
    method CreatePromotionCode(couponId: nat, code: string)
      modifies this
      ensures State() == AddPromotionCode(old(State()), couponId, code)
    {
      promotionCodes := promotionCodes + [PromotionCode(couponId, code)];
    }
  }

  // ---------------------------------------------------------------------------
  // Coupon parameters.

  /** JavaScript truthiness of an optional number: absent and 0 are falsy. */
  predicate Truthy(x: Option<real>)
  {
    x.Some? && x.value != 0.0
  }

  /** The product a category-scoped coupon reaches: one whose category is the
      given one, or whose category's parent is. */
  predicate InCategory(p: Product, category: string)
  {
    p.categoryId == Some(category) || p.categoryParent == Some(category)
  }

  function AllProductIds(catalog: seq<Product>): seq<string>
  {
    seq(|catalog|, i requires 0 <= i < |catalog| => catalog[i].id)
  }

  /** The `$or` query on `category._id` and `category.parent`, in catalogue order. */
  function ProductsInCategory(catalog: seq<Product>, category: string): (ids: seq<string>)
    ensures |ids| <= |catalog|
  {
    if catalog == [] then []
    else (if InCategory(catalog[0], category) then [catalog[0].id] else [])
         + ProductsInCategory(catalog[1..], category)
  }

  /** `couponParams.applies_to` (lines 80-124); None leaves it unset. */
  function AppliesTo(coupon: Coupon, catalog: seq<Product>): Option<seq<string>>
  {
    if coupon.applyTo == "all" then Some(AllProductIds(catalog))
    else if coupon.applyTo == "product" then Some([coupon.product])
    else if coupon.applyTo == "category" then Some(ProductsInCategory(catalog, coupon.category))
    else None
  }

  /** `couponParams` (lines 68-124). */
  function Params(coupon: Coupon, catalog: seq<Product>): (params: CouponParams)
    ensures params.name == coupon.code && params.percentOff == coupon.percentOff
    ensures params.amountOff.Some? <==> Truthy(coupon.amountOff)
    ensures params.currency.Some? <==> Truthy(coupon.amountOff)
    ensures Truthy(coupon.amountOff) ==>
      params.amountOff.value == coupon.amountOff.value * 100.0 && params.currency.value == "usd"
    ensures params.appliesTo == AppliesTo(coupon, catalog)
  {
    var amount := Truthy(coupon.amountOff);
    CouponParams(
      coupon.code,
      coupon.percentOff,
      if amount then Some(coupon.amountOff.value * 100.0) else None,
      if amount then Some("usd") else None,
      AppliesTo(coupon, catalog))
  }

  lemma {:induction false} ProductsInCategoryMembers(catalog: seq<Product>, category: string, x: string)
    ensures x in ProductsInCategory(catalog, category) <==>
            exists i :: 0 <= i < |catalog| && catalog[i].id == x && InCategory(catalog[i], category)
    decreases |catalog|
  {
    if catalog != [] {
      ProductsInCategoryMembers(catalog[1..], category, x);
      if exists i :: 0 <= i < |catalog| && catalog[i].id == x && InCategory(catalog[i], category) {
        var i :| 0 <= i < |catalog| && catalog[i].id == x && InCategory(catalog[i], category);
        if i > 0 {
          assert catalog[1..][i - 1] == catalog[i];
        }
      }
      if x in ProductsInCategory(catalog[1..], category) {
        var i :| 0 <= i < |catalog[1..]| && catalog[1..][i].id == x && InCategory(catalog[1..][i], category);
        assert catalog[i + 1] == catalog[1..][i];
      }
    }
  }

  /** The four applicability rules: every product, the one product, the
      products of the category and of its direct children, or unset. */
  lemma AppliesToRules(coupon: Coupon, catalog: seq<Product>)
    ensures coupon.applyTo == "all" ==>
      var ids := AppliesTo(coupon, catalog).value;
      |ids| == |catalog| && forall i :: 0 <= i < |catalog| ==> ids[i] == catalog[i].id
    ensures coupon.applyTo == "product" ==> AppliesTo(coupon, catalog) == Some([coupon.product])
    ensures coupon.applyTo == "category" ==>
      (AppliesTo(coupon, catalog).Some? &&
       forall x :: x in AppliesTo(coupon, catalog).value <==>
         exists i :: 0 <= i < |catalog| && catalog[i].id == x && InCategory(catalog[i], coupon.category))
    ensures coupon.applyTo !in {"all", "product", "category"} ==> AppliesTo(coupon, catalog) == None
  {
    if coupon.applyTo == "category" {
      forall x ensures x in AppliesTo(coupon, catalog).value <==>
        exists i :: 0 <= i < |catalog| && catalog[i].id == x && InCategory(catalog[i], coupon.category)
      {
        ProductsInCategoryMembers(catalog, coupon.category, x);
      }
    }
  }

  /** A category-scoped coupon reaches the category's products and its
      children's, but not a grandchild's. */
  lemma CategoryScopeIsTwoLevels()
    ensures var catalog := [Product("p1", Some("catX"), None),
                            Product("p2", Some("child"), Some("catX")),
                            Product("p3", Some("catY"), None),
                            Product("p4", Some("grandchild"), Some("child"))];
            AppliesTo(Coupon("C", Some(10.0), None, "category", "", "catX"), catalog) == Some(["p1", "p2"])
  {
    var catalog := [Product("p1", Some("catX"), None),
                    Product("p2", Some("child"), Some("catX")),
                    Product("p3", Some("catY"), None),
                    Product("p4", Some("grandchild"), Some("child"))];
    var p4 := catalog[3..];
    var p3 := catalog[2..];
    var p2 := catalog[1..];
    assert p4[1..] == [] && p3[1..] == p4 && p2[1..] == p3 && catalog[1..] == p2;
    assert ProductsInCategory(p4, "catX") == [] + ProductsInCategory([], "catX");
    assert ProductsInCategory(p3, "catX") == [];
    assert ProductsInCategory(p2, "catX") == ["p2"];
    assert ProductsInCategory(catalog, "catX") == ["p1"] + ["p2"];
    var coupon := Coupon("C", Some(10.0), None, "category", "", "catX");
    assert coupon.applyTo != "all" && coupon.applyTo != "product";
    assert AppliesTo(coupon, catalog) == Some(ProductsInCategory(catalog, coupon.category));
    assert ["p1"] + ["p2"] == ["p1", "p2"];
  }

  // ---------------------------------------------------------------------------
  // The reconciliation, as a specification.

  /** `stripeCoupons.data.find((coupon) => coupon.name === name)`: only the
      first coupon with that name is ever returned. */
  function FirstNamed(coupons: seq<ExternalCoupon>, name: string): (r: Option<nat>)
    ensures r.Some? ==> r.value < |coupons| && coupons[r.value].params.name == name
    ensures r.Some? ==> forall k :: 0 <= k < r.value ==> coupons[k].params.name != name
    ensures r.None? ==> forall k :: 0 <= k < |coupons| ==> coupons[k].params.name != name
  {
    if |coupons| == 0 then None
    else if coupons[0].params.name == name then Some(0)
    else match FirstNamed(coupons[1..], name)
      case None => None
      case Some(k) => Some(k + 1)
  }

  /** `Object.keys(value)`. */
  function Keys(entries: seq<(string, Coupon)>): seq<string>
  {
    seq(|entries|, i requires 0 <= i < |entries| => entries[i].0)
  }

  /** The codes of the desired coupons, in key order. */
  function Codes(entries: seq<(string, Coupon)>): seq<string>
  {
    seq(|entries|, i requires 0 <= i < |entries| => entries[i].1.code)
  }

  /** `existingCouponNames.filter((name) => !Object.keys(value).includes(name))`. */
  function NamesToDelete(snapshot: seq<ExternalCoupon>, keys: seq<string>): (names: seq<string>)
    ensures forall j :: 0 <= j < |names| ==> names[j] !in keys
  {
    if snapshot == [] then []
    else (if snapshot[0].params.name in keys then [] else [snapshot[0].params.name])
         + NamesToDelete(snapshot[1..], keys)
  }

  /** What a run of the handler's loops leaves: the platform and whether the
      loops ran to the end (false: an uncaught error ended the request). */
  datatype Run = Run(platform: Platform, completed: bool)

  /** The create/update loop (lines 53-139) from platform state `p`, looking
      existing coupons up in the list fetched at the start. */
  function UpdatePass(p: Platform, snapshot: seq<ExternalCoupon>,
                      entries: seq<(string, Coupon)>, catalog: seq<Product>): Run
    decreases |entries|
  {
    if entries == [] then Run(p, true)
    else
      var coupon := entries[0].1;
      var existing := FirstNamed(snapshot, coupon.code);
      var afterDelete := if existing.Some? then DeleteCoupon(p, snapshot[existing.value].id) else Some(p);
      if afterDelete.None? then Run(p, false)
      else
        var created := CreateCoupon(afterDelete.value, Params(coupon, catalog));
        var promoted := AddPromotionCode(created, afterDelete.value.nextId, coupon.code);
        UpdatePass(promoted, snapshot, entries[1..], catalog)
  }

  /** The leftover loop (lines 141-155): each delete's error is caught. */
  function DeletePass(p: Platform, snapshot: seq<ExternalCoupon>, names: seq<string>): Platform
    decreases |names|
  {
    if names == [] then p
    else
      var existing := FirstNamed(snapshot, names[0]);
      var next := if existing.Some? && DeleteCoupon(p, snapshot[existing.value].id).Some?
                  then DeleteCoupon(p, snapshot[existing.value].id).value else p;
      DeletePass(next, snapshot, names[1..])
  }

  /** The coupon branch of PUT from platform state `p`. */
  function Reconcile(p: Platform, entries: seq<(string, Coupon)>, catalog: seq<Product>): Run
  {
    var snapshot := Page(p.coupons);
    var updated := UpdatePass(p, snapshot, entries, catalog);
    if !updated.completed then updated
    else Run(DeletePass(updated.platform, snapshot, NamesToDelete(snapshot, Keys(entries))), true)
  }

  /** The coupons a run creates, one per desired coupon in key order, numbered
      from `start`. */
  function NewCoupons(start: nat, entries: seq<(string, Coupon)>, catalog: seq<Product>): (r: seq<ExternalCoupon>)
    ensures |r| == |entries|
    ensures forall i :: 0 <= i < |entries| ==> r[i] == ExternalCoupon(start + i, Params(entries[i].1, catalog))
    decreases |entries|
  {
    if entries == [] then []
    else [ExternalCoupon(start, Params(entries[0].1, catalog))] + NewCoupons(start + 1, entries[1..], catalog)
  }

  function NewPromotionCodes(start: nat, entries: seq<(string, Coupon)>): (r: seq<PromotionCode>)
    ensures |r| == |entries|
    ensures forall i :: 0 <= i < |entries| ==> r[i] == PromotionCode(start + i, entries[i].1.code)
    decreases |entries|
  {
    if entries == [] then []
    else [PromotionCode(start, entries[0].1.code)] + NewPromotionCodes(start + 1, entries[1..])
  }

  // ---------------------------------------------------------------------------
  // Removing coupons by id.

  lemma {:induction false} RemoveIdsAppend(a: seq<ExternalCoupon>, b: seq<ExternalCoupon>, ids: set<nat>)
    ensures RemoveIds(a + b, ids) == RemoveIds(a, ids) + RemoveIds(b, ids)
    decreases |a|
  {
    if a == [] {
      assert a + b == b;
    } else {
      assert (a + b)[1..] == a[1..] + b;
      RemoveIdsAppend(a[1..], b, ids);
    }
  }

  lemma {:induction false} RemoveIdsTwice(cs: seq<ExternalCoupon>, a: set<nat>, b: set<nat>)
    ensures RemoveIds(RemoveIds(cs, a), b) == RemoveIds(cs, a + b)
    decreases |cs|
  {
    if cs != [] {
      RemoveIdsTwice(cs[1..], a, b);
      var head := if cs[0].id in a then [] else [cs[0]];
      RemoveIdsAppend(head, RemoveIds(cs[1..], a), b);
      if cs[0].id !in a {
        assert RemoveIds(head, b) == (if cs[0].id in b then [] else [cs[0]]) by {
          assert head[1..] == [];
        }
      }
    }
  }

  lemma {:induction false} RemoveIdsNone(cs: seq<ExternalCoupon>, ids: set<nat>)
    requires forall k :: 0 <= k < |cs| ==> cs[k].id !in ids
    ensures RemoveIds(cs, ids) == cs
    decreases |cs|
  {
    if cs != [] {
      RemoveIdsNone(cs[1..], ids);
    }
  }

  lemma {:induction false} RemoveIdsAll(cs: seq<ExternalCoupon>, ids: set<nat>)
    requires forall k :: 0 <= k < |cs| ==> cs[k].id in ids
    ensures RemoveIds(cs, ids) == []
    decreases |cs|
  {
    if cs != [] {
      RemoveIdsAll(cs[1..], ids);
    }
  }

  /** Removal keeps exactly the coupons whose id is not removed. */
  lemma {:induction false} RemoveIdsMembers(cs: seq<ExternalCoupon>, ids: set<nat>)
    ensures forall k :: 0 <= k < |RemoveIds(cs, ids)| ==> RemoveIds(cs, ids)[k] in cs
    ensures forall k :: 0 <= k < |cs| && cs[k].id !in ids ==> cs[k] in RemoveIds(cs, ids)
    decreases |cs|
  {
    if cs != [] {
      RemoveIdsMembers(cs[1..], ids);
      var r := RemoveIds(cs, ids);
      var head := if cs[0].id in ids then [] else [cs[0]];
      var rest := RemoveIds(cs[1..], ids);
      assert r == head + rest;
      forall k | 0 <= k < |r| ensures r[k] in cs {
        if k >= |head| {
          assert r[k] == rest[k - |head|];
          assert rest[k - |head|] in cs[1..];
        }
      }
      forall k | 0 <= k < |cs| && cs[k].id !in ids ensures cs[k] in r {
        if k > 0 {
          assert cs[k] == cs[1..][k - 1];
          assert cs[k] in rest;
        }
      }
    }
  }

  lemma {:induction false} RemoveIdsDistinct(cs: seq<ExternalCoupon>, ids: set<nat>)
    requires DistinctIds(cs)
    ensures DistinctIds(RemoveIds(cs, ids))
    decreases |cs|
  {
    if cs != [] {
      var tail := cs[1..];
      assert DistinctIds(tail) by {
        forall a, b | 0 <= a < b < |tail| ensures tail[a].id != tail[b].id {
          assert tail[a] == cs[a + 1] && tail[b] == cs[b + 1];
        }
      }
      RemoveIdsDistinct(tail, ids);
      RemoveIdsMembers(tail, ids);
      var rest := RemoveIds(tail, ids);
      if cs[0].id !in ids {
        forall k | 0 <= k < |rest| ensures rest[k].id != cs[0].id {
          var m :| 0 <= m < |tail| && tail[m] == rest[k];
          assert cs[m + 1] == rest[k];
        }
        var r := RemoveIds(cs, ids);
        assert r == [cs[0]] + rest;
        forall a, b | 0 <= a < b < |r| ensures r[a].id != r[b].id {
          if a == 0 {
            assert r[b] == rest[b - 1];
          } else {
            assert r[a] == rest[a - 1] && r[b] == rest[b - 1];
          }
        }
      }
    }
  }

  /** Removing ids keeps the platform invariant. */
  lemma RemoveIdsKeeps(cs: seq<ExternalCoupon>, ids: set<nat>, bound: nat)
    requires DistinctIds(cs) && IdsBelow(cs, bound)
    ensures DistinctIds(RemoveIds(cs, ids)) && IdsBelow(RemoveIds(cs, ids), bound)
  {
    RemoveIdsDistinct(cs, ids);
    RemoveIdsMembers(cs, ids);
    var r := RemoveIds(cs, ids);
    forall k | 0 <= k < |r| ensures r[k].id < bound {
      var m :| 0 <= m < |cs| && cs[m] == r[k];
    }
  }

  /** A coupon whose id is not removed is still found by id. */
  lemma RemoveIdsFind(cs: seq<ExternalCoupon>, ids: set<nat>, m: nat)
    requires m < |cs| && cs[m].id !in ids
    ensures HasId(RemoveIds(cs, ids), cs[m].id)
  {
    var r := RemoveIds(cs, ids);
    RemoveIdsMembers(cs, ids);
    assert cs[m] in r;
    var j :| 0 <= j < |r| && r[j] == cs[m];
  }

  // ---------------------------------------------------------------------------
  // The ids a list of names picks out of the fetched coupons.

  /** The id of the first fetched coupon carrying `name`, if any. */
  function NamedId(snapshot: seq<ExternalCoupon>, name: string): set<nat>
  {
    match FirstNamed(snapshot, name)
    case Some(k) => {snapshot[k].id}
    case None => {}
  }

  /** The ids of the first fetched coupon carrying each name. */
  function IdsNamed(snapshot: seq<ExternalCoupon>, names: seq<string>): set<nat>
    decreases |names|
  {
    if names == [] then {} else NamedId(snapshot, names[0]) + IdsNamed(snapshot, names[1..])
  }

  lemma {:induction false} IdsNamedInside(snapshot: seq<ExternalCoupon>, names: seq<string>, id: nat)
    requires id in IdsNamed(snapshot, names)
    ensures HasId(snapshot, id)
    ensures exists k :: 0 <= k < |snapshot| && snapshot[k].id == id && snapshot[k].params.name in names
    decreases |names|
  {
    if id in NamedId(snapshot, names[0]) {
      var k := FirstNamed(snapshot, names[0]).value;
      assert snapshot[k].id == id && snapshot[k].params.name in names;
    } else {
      IdsNamedInside(snapshot, names[1..], id);
      var m :| 0 <= m < |snapshot| && snapshot[m].id == id && snapshot[m].params.name in names[1..];
      assert snapshot[m].params.name in names;
    }
  }

  /** A fetched coupon whose name is not in the list keeps its id out of the set. */
  lemma IdsNamedOutside(snapshot: seq<ExternalCoupon>, names: seq<string>, k: nat)
    requires DistinctIds(snapshot) && k < |snapshot| && snapshot[k].params.name !in names
    ensures snapshot[k].id !in IdsNamed(snapshot, names)
  {
    forall m | 0 <= m < |snapshot| && snapshot[m].id == snapshot[k].id ensures m == k {
    }
    if snapshot[k].id in IdsNamed(snapshot, names) {
      IdsNamedInside(snapshot, names, snapshot[k].id);
      assert false;
    }
  }

  /** With unique names, every fetched coupon whose name is listed has its id
      in the set. */
  lemma {:induction false} IdsNamedCovers(snapshot: seq<ExternalCoupon>, names: seq<string>, k: nat)
    requires DistinctNames(snapshot) && k < |snapshot| && snapshot[k].params.name in names
    ensures snapshot[k].id in IdsNamed(snapshot, names)
    decreases |names|
  {
    if names[0] == snapshot[k].params.name {
      var f := FirstNamed(snapshot, names[0]);
      assert f == Some(k);
    } else {
      IdsNamedCovers(snapshot, names[1..], k);
    }
  }

  // ---------------------------------------------------------------------------
  // What the loops do when names are unique.

  ghost predicate DistinctSeq(names: seq<string>)
  {
    forall a, b :: 0 <= a < b < |names| ==> names[a] != names[b]
  }

  lemma DistinctSeqTail(names: seq<string>)
    requires DistinctSeq(names) && names != []
    ensures DistinctSeq(names[1..]) && names[0] !in names[1..]
  {
    forall a, b | 0 <= a < b < |names[1..]| ensures names[1..][a] != names[1..][b] {
      assert names[1..][a] == names[a + 1] && names[1..][b] == names[b + 1];
    }
    forall j | 0 <= j < |names[1..]| ensures names[1..][j] != names[0] {
      assert names[1..][j] == names[j + 1];
    }
  }

  /** Deleting the coupon picked for the first name leaves the coupons picked
      for the other (distinct) names. */
  lemma PendingSurvive(cs: seq<ExternalCoupon>, snapshot: seq<ExternalCoupon>, names: seq<string>)
    requires DistinctIds(snapshot) && DistinctSeq(names) && names != []
    requires forall id :: id in IdsNamed(snapshot, names) ==> HasId(cs, id)
    ensures forall id :: id in IdsNamed(snapshot, names[1..]) ==>
              HasId(RemoveIds(cs, NamedId(snapshot, names[0])), id)
  {
    DistinctSeqTail(names);
    var first := FirstNamed(snapshot, names[0]);
    if first.Some? {
      IdsNamedOutside(snapshot, names[1..], first.value);
    }
    forall id | id in IdsNamed(snapshot, names[1..])
      ensures HasId(RemoveIds(cs, NamedId(snapshot, names[0])), id)
    {
      assert id in IdsNamed(snapshot, names);
      var m :| 0 <= m < |cs| && cs[m].id == id;
      RemoveIdsFind(cs, NamedId(snapshot, names[0]), m);
    }
  }

  lemma CodesTail(entries: seq<(string, Coupon)>)
    requires entries != []
    ensures Codes(entries[1..]) == Codes(entries)[1..] && Codes(entries)[0] == entries[0].1.code
  {
    assert forall i :: 0 <= i < |entries| - 1 ==> Codes(entries[1..])[i] == Codes(entries)[1..][i];
  }

  /** One turn of the create/update loop whose delete, if any, succeeds. */
  lemma UpdateStep(q: Platform, snapshot: seq<ExternalCoupon>, entries: seq<(string, Coupon)>, catalog: seq<Product>)
    requires entries != []
    requires forall id :: id in NamedId(snapshot, entries[0].1.code) ==> HasId(q.coupons, id)
    ensures UpdatePass(q, snapshot, entries, catalog) ==
            UpdatePass(AfterTurn(q, snapshot, entries[0].1, catalog), snapshot, entries[1..], catalog)
  {
    if FirstNamed(snapshot, entries[0].1.code).None? {
      RemoveIdsNone(q.coupons, {});
    }
  }

  /** Creating a coupon after a deletion keeps the platform invariant. */
  lemma ValidAfterCreate(q: Platform, removed: set<nat>, made: ExternalCoupon, promotionCodes: seq<PromotionCode>)
    requires ValidPlatform(q) && made.id == q.nextId
    ensures ValidPlatform(Platform(RemoveIds(q.coupons, removed) + [made], promotionCodes, q.nextId + 1))
  {
    var kept := RemoveIds(q.coupons, removed);
    RemoveIdsKeeps(q.coupons, removed, q.nextId);
    var cs := kept + [made];
    forall a, b | 0 <= a < b < |cs| ensures cs[a].id != cs[b].id {
      assert cs[a] == kept[a];
      if b < |kept| {
        assert cs[b] == kept[b];
      }
    }
    forall k | 0 <= k < |cs| ensures cs[k].id < q.nextId + 1 {
      if k < |kept| {
        assert cs[k] == kept[k];
      }
    }
  }

  /** The platform after one turn of the create/update loop whose delete,
      if any, succeeds. */
  function AfterTurn(q: Platform, snapshot: seq<ExternalCoupon>, coupon: Coupon, catalog: seq<Product>): Platform
  {
    Platform(RemoveIds(q.coupons, NamedId(snapshot, coupon.code)) + [ExternalCoupon(q.nextId, Params(coupon, catalog))],
             q.promotionCodes + [PromotionCode(q.nextId, coupon.code)],
             q.nextId + 1)
  }

  /** What the create/update loop leaves when every delete succeeds. */
  function UpdateResult(q: Platform, snapshot: seq<ExternalCoupon>,
                        entries: seq<(string, Coupon)>, catalog: seq<Product>): Run
  {
    Run(Platform(RemoveIds(q.coupons, IdsNamed(snapshot, Codes(entries))) + NewCoupons(q.nextId, entries, catalog),
                 q.promotionCodes + NewPromotionCodes(q.nextId, entries),
                 q.nextId + |entries|),
        true)
  }

  /** After one turn the rest of the loop still meets the conditions. */
  lemma AfterTurnReady(q: Platform, snapshot: seq<ExternalCoupon>,
                       entries: seq<(string, Coupon)>, catalog: seq<Product>)
    requires ValidPlatform(q) && DistinctIds(snapshot) && entries != []
    requires DistinctSeq(Codes(entries))
    requires forall id :: id in IdsNamed(snapshot, Codes(entries)) ==> HasId(q.coupons, id)
    ensures var next := AfterTurn(q, snapshot, entries[0].1, catalog);
            && ValidPlatform(next)
            && DistinctSeq(Codes(entries[1..]))
            && forall id :: id in IdsNamed(snapshot, Codes(entries[1..])) ==> HasId(next.coupons, id)
  {
    var codes := Codes(entries);
    CodesTail(entries);
    var removed := NamedId(snapshot, codes[0]);
    var made := ExternalCoupon(q.nextId, Params(entries[0].1, catalog));
    var kept := RemoveIds(q.coupons, removed);
    var next := AfterTurn(q, snapshot, entries[0].1, catalog);
    assert next.coupons == kept + [made];
    ValidAfterCreate(q, removed, made, next.promotionCodes);
    PendingSurvive(q.coupons, snapshot, codes);
    DistinctSeqTail(codes);
    forall id | id in IdsNamed(snapshot, codes[1..]) ensures HasId(next.coupons, id) {
      var m :| 0 <= m < |kept| && kept[m].id == id;
      assert next.coupons[m] == kept[m];
    }
  }

  /** The coupons one turn leaves, followed by the rest of the loop's, are
      the coupons the whole loop leaves. */
  lemma UpdateComposeCoupons(q: Platform, snapshot: seq<ExternalCoupon>,
                             entries: seq<(string, Coupon)>, catalog: seq<Product>)
    requires IdsBelow(q.coupons, q.nextId) && entries != []
    requires forall id :: id in IdsNamed(snapshot, Codes(entries)) ==> HasId(q.coupons, id)
    ensures RemoveIds(AfterTurn(q, snapshot, entries[0].1, catalog).coupons, IdsNamed(snapshot, Codes(entries[1..])))
              + NewCoupons(q.nextId + 1, entries[1..], catalog)
            == RemoveIds(q.coupons, IdsNamed(snapshot, Codes(entries))) + NewCoupons(q.nextId, entries, catalog)
  {
    var codes := Codes(entries);
    CodesTail(entries);
    var removed := NamedId(snapshot, codes[0]);
    var tailIds := IdsNamed(snapshot, codes[1..]);
    var made := ExternalCoupon(q.nextId, Params(entries[0].1, catalog));
    var kept := RemoveIds(q.coupons, removed);
    var later := NewCoupons(q.nextId + 1, entries[1..], catalog);
    assert IdsNamed(snapshot, codes) == removed + tailIds;
    assert made.id !in tailIds by {
      forall id | id in IdsNamed(snapshot, codes) ensures id < q.nextId {
        var k :| 0 <= k < |q.coupons| && q.coupons[k].id == id;
      }
    }
    calc {
      RemoveIds(kept + [made], tailIds) + later;
    == { RemoveIdsAppend(kept, [made], tailIds); }
      RemoveIds(kept, tailIds) + RemoveIds([made], tailIds) + later;
    == { RemoveIdsTwice(q.coupons, removed, tailIds); RemoveIdsNone([made], tailIds); }
      RemoveIds(q.coupons, removed + tailIds) + [made] + later;
    == { assert NewCoupons(q.nextId, entries, catalog) == [made] + later; }
      RemoveIds(q.coupons, IdsNamed(snapshot, codes)) + NewCoupons(q.nextId, entries, catalog);
    }
    assert AfterTurn(q, snapshot, entries[0].1, catalog).coupons == kept + [made];
    assert IdsNamed(snapshot, Codes(entries[1..])) == tailIds;
  }

  /** One turn and the rest of the loop, unfolded. */
  lemma SplitResult(q: Platform, snapshot: seq<ExternalCoupon>,
                    entries: seq<(string, Coupon)>, catalog: seq<Product>)
    requires entries != []
    ensures var next := AfterTurn(q, snapshot, entries[0].1, catalog);
            UpdateResult(next, snapshot, entries[1..], catalog)
            == Run(Platform(RemoveIds(next.coupons, IdsNamed(snapshot, Codes(entries[1..])))
                              + NewCoupons(q.nextId + 1, entries[1..], catalog),
                            (q.promotionCodes + [PromotionCode(q.nextId, entries[0].1.code)])
                              + NewPromotionCodes(q.nextId + 1, entries[1..]),
                            q.nextId + |entries|),
                   true)
  {
  }

  /** The promotion codes after one turn and the rest of the loop. */
  lemma SplitPromotionCodes(q: Platform, entries: seq<(string, Coupon)>)
    requires entries != []
    ensures (q.promotionCodes + [PromotionCode(q.nextId, entries[0].1.code)]) + NewPromotionCodes(q.nextId + 1, entries[1..])
            == q.promotionCodes + NewPromotionCodes(q.nextId, entries)
  {
    var promotion := PromotionCode(q.nextId, entries[0].1.code);
    var later := NewPromotionCodes(q.nextId + 1, entries[1..]);
    assert NewPromotionCodes(q.nextId, entries) == [promotion] + later;
    AppendAssociates(q.promotionCodes, [promotion], later);
  }

  /** One turn followed by the rest of the loop gives the whole loop's result. */
  lemma UpdateCompose(q: Platform, snapshot: seq<ExternalCoupon>,
                      entries: seq<(string, Coupon)>, catalog: seq<Product>)
    requires ValidPlatform(q) && entries != []
    requires forall id :: id in IdsNamed(snapshot, Codes(entries)) ==> HasId(q.coupons, id)
    ensures UpdateResult(AfterTurn(q, snapshot, entries[0].1, catalog), snapshot, entries[1..], catalog)
            == UpdateResult(q, snapshot, entries, catalog)
  {
    UpdateComposeCoupons(q, snapshot, entries, catalog);
    SplitResult(q, snapshot, entries, catalog);
    SplitPromotionCodes(q, entries);
  }

  lemma AppendAssociates<T>(a: seq<T>, b: seq<T>, c: seq<T>)
    ensures (a + b) + c == a + (b + c)
  {
  }

  /** The create/update loop, when every code is distinct and the coupons it
      will delete are still there: those coupons go, and one new coupon and
      one promotion code per desired coupon are added in key order. */
  lemma {:induction false} UpdatePassExact(q: Platform, snapshot: seq<ExternalCoupon>,
                                           entries: seq<(string, Coupon)>, catalog: seq<Product>)
    requires ValidPlatform(q) && DistinctIds(snapshot)
    requires DistinctSeq(Codes(entries))
    requires forall id :: id in IdsNamed(snapshot, Codes(entries)) ==> HasId(q.coupons, id)
    ensures UpdatePass(q, snapshot, entries, catalog) == UpdateResult(q, snapshot, entries, catalog)
    decreases |entries|
  {
    if entries == [] {
      RemoveIdsNone(q.coupons, {});
    } else {
      CodesTail(entries);
      UpdateStep(q, snapshot, entries, catalog);
      AfterTurnReady(q, snapshot, entries, catalog);
      UpdatePassExact(AfterTurn(q, snapshot, entries[0].1, catalog), snapshot, entries[1..], catalog);
      UpdateCompose(q, snapshot, entries, catalog);
    }
  }

  /** One turn of the leftover loop whose delete, if any, succeeds. */
  lemma DeleteStep(q: Platform, snapshot: seq<ExternalCoupon>, names: seq<string>)
    requires names != []
    requires forall id :: id in NamedId(snapshot, names[0]) ==> HasId(q.coupons, id)
    ensures DeletePass(q, snapshot, names) ==
            DeletePass(q.(coupons := RemoveIds(q.coupons, NamedId(snapshot, names[0]))), snapshot, names[1..])
  {
    if FirstNamed(snapshot, names[0]).None? {
      RemoveIdsNone(q.coupons, {});
    }
  }

  /** The leftover loop over distinct names whose coupons are all still there:
      each of those coupons goes, and nothing else changes. */
  lemma {:induction false} DeletePassExact(q: Platform, snapshot: seq<ExternalCoupon>, names: seq<string>)
    requires DistinctIds(snapshot) && DistinctSeq(names)
    requires forall id :: id in IdsNamed(snapshot, names) ==> HasId(q.coupons, id)
    ensures DeletePass(q, snapshot, names) == q.(coupons := RemoveIds(q.coupons, IdsNamed(snapshot, names)))
    decreases |names|
  {
    if names == [] {
      RemoveIdsNone(q.coupons, {});
    } else {
      var removed := NamedId(snapshot, names[0]);
      DeleteStep(q, snapshot, names);
      PendingSurvive(q.coupons, snapshot, names);
      DistinctSeqTail(names);
      DeletePassExact(q.(coupons := RemoveIds(q.coupons, removed)), snapshot, names[1..]);
      RemoveIdsTwice(q.coupons, removed, IdsNamed(snapshot, names[1..]));
    }
  }

  lemma DistinctNamesTail(snapshot: seq<ExternalCoupon>)
    requires DistinctNames(snapshot) && snapshot != []
    ensures DistinctNames(snapshot[1..])
  {
    var rest := snapshot[1..];
    forall a, b | 0 <= a < b < |rest| ensures rest[a].params.name != rest[b].params.name {
      assert rest[a] == snapshot[a + 1] && rest[b] == snapshot[b + 1];
    }
  }

  /** The leftover names are fetched names, and every fetched name that is
      not a key is among them. */
  lemma {:induction false} NamesToDeleteMembers(snapshot: seq<ExternalCoupon>, keys: seq<string>)
    ensures forall n :: n in NamesToDelete(snapshot, keys) ==>
              exists k :: 0 <= k < |snapshot| && snapshot[k].params.name == n
    ensures forall k :: 0 <= k < |snapshot| && snapshot[k].params.name !in keys ==>
              snapshot[k].params.name in NamesToDelete(snapshot, keys)
    decreases |snapshot|
  {
    if snapshot != [] {
      var rest := snapshot[1..];
      NamesToDeleteMembers(rest, keys);
      var tail := NamesToDelete(rest, keys);
      var all := NamesToDelete(snapshot, keys);
      assert all == (if snapshot[0].params.name in keys then [] else [snapshot[0].params.name]) + tail;
      forall n | n in all ensures exists k :: 0 <= k < |snapshot| && snapshot[k].params.name == n {
        if n in tail {
          var k :| 0 <= k < |rest| && rest[k].params.name == n;
          assert snapshot[k + 1].params.name == n;
        } else {
          assert snapshot[0].params.name == n;
        }
      }
      forall k | 0 <= k < |snapshot| && snapshot[k].params.name !in keys
        ensures snapshot[k].params.name in all
      {
        if k > 0 {
          assert rest[k - 1] == snapshot[k];
        }
      }
    }
  }

  /** With unique fetched names the leftover names are unique. */
  lemma {:induction false} NamesToDeleteDistinct(snapshot: seq<ExternalCoupon>, keys: seq<string>)
    requires DistinctNames(snapshot)
    ensures DistinctSeq(NamesToDelete(snapshot, keys))
    decreases |snapshot|
  {
    if snapshot != [] {
      var rest := snapshot[1..];
      DistinctNamesTail(snapshot);
      NamesToDeleteDistinct(rest, keys);
      NamesToDeleteMembers(rest, keys);
      var tail := NamesToDelete(rest, keys);
      var first := snapshot[0].params.name;
      forall n | n in tail ensures n != first {
        var k :| 0 <= k < |rest| && rest[k].params.name == n;
        assert rest[k] == snapshot[k + 1];
      }
      var all := NamesToDelete(snapshot, keys);
      if first !in keys {
        assert all == [first] + tail;
        forall a, b | 0 <= a < b < |all| ensures all[a] != all[b] {
          assert all[b] == tail[b - 1] && tail[b - 1] in tail;
          if a > 0 {
            assert all[a] == tail[a - 1];
          }
        }
      } else {
        assert all == tail;
      }
    }
  }

  /** A desired coupon table whose keys are the coupons' own codes, all
      different. The handler does not check this; `KeyCodeMismatchKeepsCoupon`
      shows what a key that differs from its code does. */
  ghost predicate KeyedByCode(entries: seq<(string, Coupon)>)
  {
    && (forall i :: 0 <= i < |entries| ==> entries[i].0 == entries[i].1.code)
    && DistinctSeq(Codes(entries))
  }

  /** For a table keyed by code, every fetched coupon is either replaced by
      the update loop (its name is a code) or deleted as a leftover (its name
      is not a key). */
  lemma SnapshotCovered(snapshot: seq<ExternalCoupon>, entries: seq<(string, Coupon)>)
    requires DistinctNames(snapshot) && KeyedByCode(entries)
    ensures forall k :: 0 <= k < |snapshot| ==>
              snapshot[k].id in IdsNamed(snapshot, Codes(entries))
                              + IdsNamed(snapshot, NamesToDelete(snapshot, Keys(entries)))
  {
    var codes := Codes(entries);
    KeysAreCodes(entries);
    NamesToDeleteMembers(snapshot, codes);
    forall k | 0 <= k < |snapshot|
      ensures snapshot[k].id in IdsNamed(snapshot, codes) + IdsNamed(snapshot, NamesToDelete(snapshot, codes))
    {
      if snapshot[k].params.name in codes {
        IdsNamedCovers(snapshot, codes, k);
      } else {
        IdsNamedCovers(snapshot, NamesToDelete(snapshot, codes), k);
      }
    }
  }

  /** The leftovers' coupons survive the update loop's deletions. */
  lemma LeftoversRemain(coupons: seq<ExternalCoupon>, snapshot: seq<ExternalCoupon>, codes: seq<string>,
                        made: seq<ExternalCoupon>)
    requires DistinctIds(snapshot) && DistinctNames(snapshot)
    requires forall id :: HasId(snapshot, id) ==> HasId(coupons, id)
    ensures forall id :: id in IdsNamed(snapshot, NamesToDelete(snapshot, codes)) ==>
              HasId(RemoveIds(coupons, IdsNamed(snapshot, codes)) + made, id)
  {
    var names := NamesToDelete(snapshot, codes);
    var kept := RemoveIds(coupons, IdsNamed(snapshot, codes));
    forall id | id in IdsNamed(snapshot, names) ensures HasId(kept + made, id) {
      IdsNamedInside(snapshot, names, id);
      var k :| 0 <= k < |snapshot| && snapshot[k].id == id && snapshot[k].params.name in names;
      IdsNamedOutside(snapshot, codes, k);
      var c :| 0 <= c < |coupons| && coupons[c].id == id;
      RemoveIdsFind(coupons, IdsNamed(snapshot, codes), c);
      var m :| 0 <= m < |kept| && kept[m].id == id;
      assert (kept + made)[m] == kept[m];
    }
  }

  /** With at most one page of coupons, every coupon on the platform is
      replaced or deleted as a leftover. */
  lemma PlatformCovered(coupons: seq<ExternalCoupon>, entries: seq<(string, Coupon)>)
    requires DistinctNames(coupons) && |coupons| <= PageSize && KeyedByCode(entries)
    ensures var snapshot := Page(coupons);
            forall k :: 0 <= k < |coupons| ==>
              coupons[k].id in IdsNamed(snapshot, Codes(entries))
                             + IdsNamed(snapshot, NamesToDelete(snapshot, Keys(entries)))
  {
    var snapshot := Page(coupons);
    PageDistinct(coupons);
    SnapshotCovered(snapshot, entries);
    PageHoldsAll(coupons);
  }

  /** A table keyed by code lists its codes as its keys. */
  lemma KeysAreCodes(entries: seq<(string, Coupon)>)
    requires KeyedByCode(entries)
    ensures Keys(entries) == Codes(entries)
  {
  }

  /** The coupons the update loop will delete are all on a platform whose
      coupons are the fetched ones. */
  lemma SnapshotHasNamed(snapshot: seq<ExternalCoupon>, names: seq<string>)
    ensures forall id :: id in IdsNamed(snapshot, names) ==> HasId(snapshot, id)
  {
    forall id | id in IdsNamed(snapshot, names) ensures HasId(snapshot, id) {
      IdsNamedInside(snapshot, names, id);
    }
  }

  /** When the update loop completes, the leftover loop runs on its result. */
  lemma ReconcileUnfold(p: Platform, entries: seq<(string, Coupon)>, catalog: seq<Product>)
    requires UpdatePass(p, Page(p.coupons), entries, catalog).completed
    ensures Reconcile(p, entries, catalog) ==
            Run(DeletePass(UpdatePass(p, Page(p.coupons), entries, catalog).platform, Page(p.coupons),
                           NamesToDelete(Page(p.coupons), Keys(entries))), true)
  {
  }

  /** Removing the fetched ids from the fetched coupons followed by new ones
      leaves the new ones. */
  lemma OnlyNewRemain(snapshot: seq<ExternalCoupon>, updatedIds: set<nat>, leftoverIds: set<nat>,
                      made: seq<ExternalCoupon>, bound: nat)
    requires forall k :: 0 <= k < |snapshot| ==> snapshot[k].id in updatedIds + leftoverIds
    requires forall id :: id in leftoverIds ==> id < bound
    requires forall k :: 0 <= k < |made| ==> made[k].id >= bound
    ensures RemoveIds(RemoveIds(snapshot, updatedIds) + made, leftoverIds) == made
  {
    var kept := RemoveIds(snapshot, updatedIds);
    RemoveIdsAppend(kept, made, leftoverIds);
    RemoveIdsTwice(snapshot, updatedIds, leftoverIds);
    RemoveIdsAll(snapshot, updatedIds + leftoverIds);
    RemoveIdsNone(made, leftoverIds);
  }

  /** The leftover loop after a completed update loop deletes every fetched
      coupon the update loop did not replace, and only those. */
  lemma DeleteLeftovers(p: Platform, entries: seq<(string, Coupon)>, catalog: seq<Product>)
    requires ValidPlatform(p) && DistinctNames(p.coupons) && |p.coupons| <= PageSize
    requires KeyedByCode(entries)
    ensures var snapshot := Page(p.coupons);
            var after := UpdateResult(p, snapshot, entries, catalog).platform;
            DeletePass(after, snapshot, NamesToDelete(snapshot, Keys(entries)))
            == after.(coupons := NewCoupons(p.nextId, entries, catalog))
  {
    var snapshot := Page(p.coupons);
    var codes := Codes(entries);
    KeysAreCodes(entries);
    PageDistinct(p.coupons);
    var after := UpdateResult(p, snapshot, entries, catalog).platform;
    var made := NewCoupons(p.nextId, entries, catalog);
    var updatedIds := IdsNamed(snapshot, codes);
    var names := NamesToDelete(snapshot, codes);
    var leftoverIds := IdsNamed(snapshot, names);
    assert after.coupons == RemoveIds(p.coupons, updatedIds) + made;
    NamesToDeleteDistinct(snapshot, codes);
    LeftoversRemain(p.coupons, snapshot, codes, made);
    DeletePassExact(after, snapshot, names);
    PlatformCovered(p.coupons, entries);
    SnapshotHasNamed(snapshot, names);
    PageIdsBelow(p.coupons, p.nextId);
    OnlyNewRemain(p.coupons, updatedIds, leftoverIds, made, p.nextId);
  }

  /** Reconciliation converges. From a valid platform holding at most one
      page of coupons, all with different names, a table keyed by code leaves
      exactly the desired coupons, one per code, in key order with new ids,
      plus one new promotion code each; every coupon there at the start is
      gone. */
  lemma ReconcileExact(p: Platform, entries: seq<(string, Coupon)>, catalog: seq<Product>)
    requires ValidPlatform(p) && DistinctNames(p.coupons) && KeyedByCode(entries)
    requires |p.coupons| <= PageSize
    ensures Reconcile(p, entries, catalog) ==
            Run(Platform(NewCoupons(p.nextId, entries, catalog),
                         p.promotionCodes + NewPromotionCodes(p.nextId, entries),
                         p.nextId + |entries|),
                true)
  {
    var snapshot := Page(p.coupons);
    KeysAreCodes(entries);
    PageDistinct(p.coupons);
    SnapshotHasNamed(snapshot, Codes(entries));
    UpdatePassExact(p, snapshot, entries, catalog);
    ReconcileUnfold(p, entries, catalog);
    DeleteLeftovers(p, entries, catalog);
  }

  /** The coupons a run creates for a table keyed by code have unique ids
      below the new counter and unique names, each its key. */
  lemma NewCouponsValid(start: nat, entries: seq<(string, Coupon)>, catalog: seq<Product>,
                        promotionCodes: seq<PromotionCode>)
    requires KeyedByCode(entries)
    ensures var made := NewCoupons(start, entries, catalog);
            && ValidPlatform(Platform(made, promotionCodes, start + |entries|))
            && DistinctNames(made)
            && forall i :: 0 <= i < |entries| ==> made[i].params.name == entries[i].0
  {
    var made := NewCoupons(start, entries, catalog);
    var codes := Codes(entries);
    forall i | 0 <= i < |entries| ensures made[i].params.name == entries[i].0 {
      assert made[i].params == Params(entries[i].1, catalog);
    }
    forall a, b | 0 <= a < b < |made| ensures made[a].params.name != made[b].params.name {
      assert made[a].params.name == codes[a] && made[b].params.name == codes[b];
    }
  }

  /** Re-running with the same table recreates the same coupons instead of
      adding duplicates: one coupon per code, same parameters, new ids. This
      needs the table to fit one page; `ResyncPastOnePage` shows the
      duplicate an eleventh code leaves. */
  lemma ResyncIsIdempotent(p: Platform, entries: seq<(string, Coupon)>, catalog: seq<Product>)
    requires ValidPlatform(p) && DistinctNames(p.coupons) && KeyedByCode(entries)
    requires |p.coupons| <= PageSize && |entries| <= PageSize
    ensures var first := Reconcile(p, entries, catalog);
            var second := Reconcile(first.platform, entries, catalog);
            first.completed && second.completed &&
            |second.platform.coupons| == |first.platform.coupons| == |entries| &&
            DistinctNames(second.platform.coupons) &&
            forall i :: 0 <= i < |entries| ==>
              second.platform.coupons[i].params == first.platform.coupons[i].params &&
              second.platform.coupons[i].params.name == entries[i].0
  {
    ReconcileExact(p, entries, catalog);
    var first := Reconcile(p, entries, catalog).platform;
    NewCouponsValid(p.nextId, entries, catalog, first.promotionCodes);
    ReconcileExact(first, entries, catalog);
    var second := Reconcile(first, entries, catalog).platform;
    NewCouponsValid(first.nextId, entries, catalog, second.promotionCodes);
  }

  /** A coupon the fetched list does not show is never deleted by the
      leftover loop. */
  lemma {:induction false} DeletePassKeepsUnlisted(q: Platform, snapshot: seq<ExternalCoupon>, names: seq<string>,
                                                   c: ExternalCoupon)
    requires c in q.coupons && !HasId(snapshot, c.id)
    ensures c in DeletePass(q, snapshot, names).coupons
    decreases |names|
  {
    if names != [] {
      var existing := FirstNamed(snapshot, names[0]);
      if existing.Some? && DeleteCoupon(q, snapshot[existing.value].id).Some? {
        var id := snapshot[existing.value].id;
        var k :| 0 <= k < |q.coupons| && q.coupons[k] == c;
        RemoveIdsMembers(q.coupons, {id});
        DeletePassKeepsUnlisted(q.(coupons := RemoveIds(q.coupons, {id})), snapshot, names[1..], c);
      } else {
        DeletePassKeepsUnlisted(q, snapshot, names[1..], c);
      }
    }
  }

  /** With distinct codes every delete of the update loop succeeds, so the
      run is the update loop's result followed by the leftover loop over the
      page. */
  lemma PagedReconcile(p: Platform, entries: seq<(string, Coupon)>, catalog: seq<Product>)
    requires ValidPlatform(p) && DistinctSeq(Codes(entries))
    ensures var snapshot := Page(p.coupons);
            Reconcile(p, entries, catalog) ==
            Run(DeletePass(UpdateResult(p, snapshot, entries, catalog).platform, snapshot,
                           NamesToDelete(snapshot, Keys(entries))), true)
  {
    var snapshot := Page(p.coupons);
    PageDistinct(p.coupons);
    SnapshotHasNamed(snapshot, Codes(entries));
    UpdatePassExact(p, snapshot, entries, catalog);
    ReconcileUnfold(p, entries, catalog);
  }

  /** After the update loop, a coupon the fetched list does not show is still
      there, and so is every coupon the loop created. */
  lemma UpdateKeepsUnlisted(p: Platform, snapshot: seq<ExternalCoupon>, entries: seq<(string, Coupon)>,
                            catalog: seq<Product>, k: nat)
    requires k < |p.coupons| && !HasId(snapshot, p.coupons[k].id)
    ensures var after := UpdateResult(p, snapshot, entries, catalog).platform;
            && p.coupons[k] in after.coupons
            && forall i :: 0 <= i < |entries| ==> NewCoupons(p.nextId, entries, catalog)[i] in after.coupons
  {
    var codes := Codes(entries);
    var after := UpdateResult(p, snapshot, entries, catalog).platform;
    var kept := RemoveIds(p.coupons, IdsNamed(snapshot, codes));
    var made := NewCoupons(p.nextId, entries, catalog);
    assert after.coupons == kept + made;
    SnapshotHasNamed(snapshot, codes);
    RemoveIdsMembers(p.coupons, IdsNamed(snapshot, codes));
    var m :| 0 <= m < |kept| && kept[m] == p.coupons[k];
    assert after.coupons[m] == p.coupons[k];
    forall i | 0 <= i < |entries| ensures made[i] in after.coupons {
      assert after.coupons[|kept| + i] == made[i];
    }
  }

  /** Past one page the oldest coupons are not fetched, so they are neither
      replaced nor deleted: they stay next to the coupons the run creates. */
  lemma UnlistedCouponSurvives(p: Platform, entries: seq<(string, Coupon)>, catalog: seq<Product>, k: nat)
    requires ValidPlatform(p) && DistinctSeq(Codes(entries)) && k < |p.coupons| - PageSize
    ensures var r := Reconcile(p, entries, catalog);
            && r.completed
            && p.coupons[k] in r.platform.coupons
            && forall i :: 0 <= i < |entries| ==> NewCoupons(p.nextId, entries, catalog)[i] in r.platform.coupons
  {
    var snapshot := Page(p.coupons);
    var made := NewCoupons(p.nextId, entries, catalog);
    var after := UpdateResult(p, snapshot, entries, catalog).platform;
    var names := NamesToDelete(snapshot, Keys(entries));
    PagedReconcile(p, entries, catalog);
    PageMissesOldest(p.coupons, k);
    UpdateKeepsUnlisted(p, snapshot, entries, catalog, k);
    DeletePassKeepsUnlisted(after, snapshot, names, p.coupons[k]);
    PageIdsBelow(p.coupons, p.nextId);
    forall i | 0 <= i < |entries| ensures made[i] in DeletePass(after, snapshot, names).coupons {
      DeletePassKeepsUnlisted(after, snapshot, names, made[i]);
    }
  }

  /** Re-syncing a table of eleven codes on a fresh platform: the first run
      creates eleven coupons, the second fetches only the ten newest, so the
      first code's coupon is never found and a second coupon with that name
      is created. */
  lemma ResyncPastOnePage(entries: seq<(string, Coupon)>, catalog: seq<Product>)
    requires KeyedByCode(entries) && |entries| == PageSize + 1
    ensures var first := Reconcile(Platform([], [], 0), entries, catalog);
            var second := Reconcile(first.platform, entries, catalog);
            first.completed && second.completed && !DistinctNames(second.platform.coupons)
  {
    var p := Platform([], [], 0);
    ReconcileExact(p, entries, catalog);
    var first := Reconcile(p, entries, catalog).platform;
    NewCouponsValid(0, entries, catalog, first.promotionCodes);
    UnlistedCouponSurvives(first, entries, catalog, 0);
    var second := Reconcile(first, entries, catalog).platform;
    var old0 := first.coupons[0];
    var new0 := NewCoupons(first.nextId, entries, catalog)[0];
    assert old0.params.name == entries[0].0;
    assert new0.params.name == entries[0].1.code == entries[0].0;
    var a :| 0 <= a < |second.coupons| && second.coupons[a] == old0;
    var b :| 0 <= b < |second.coupons| && second.coupons[b] == new0;
    assert old0.id < first.nextId == new0.id;
  }

  /** An error in the create/update loop ends the request: two keys carrying
      one code, with a coupon of that code already on the platform. The
      first key deletes it and creates a replacement; the second finds the
      same fetched coupon, its delete fails, and nothing after it runs. */
  lemma DuplicateCodeAborts(c: Coupon, d: Coupon, catalog: seq<Product>)
    requires c.code == d.code
    ensures var stale := ExternalCoupon(0, CouponParams(c.code, None, None, None, None));
            var p := Platform([stale], [], 1);
            var r := Reconcile(p, [("a", c), ("b", d)], catalog);
            !r.completed &&
            r.platform == Platform([ExternalCoupon(1, Params(c, catalog))], [PromotionCode(1, c.code)], 2)
  {
    var stale := ExternalCoupon(0, CouponParams(c.code, None, None, None, None));
    var p := Platform([stale], [], 1);
    var entries := [("a", c), ("b", d)];
    var snapshot := [stale];
    PageOfOne(stale);
    assert FirstNamed(snapshot, c.code) == Some(0);
    assert RemoveIds(snapshot, {0}) == [] by {
      assert snapshot[1..] == [];
    }
    assert HasId(snapshot, 0) by {
      assert snapshot[0].id == 0;
    }
    var afterDelete := Platform([], [], 1);
    assert TurnDelete(p, snapshot, c.code) == Some(afterDelete);
    var afterFirst := Platform([ExternalCoupon(1, Params(c, catalog))], [PromotionCode(1, c.code)], 2);
    assert AddPromotionCode(CreateCoupon(afterDelete, Params(c, catalog)), 1, c.code) == afterFirst;
    UpdatePassTurn(p, afterDelete, snapshot, entries, catalog);
    assert entries[1..] == [("b", d)];
    assert !HasId(afterFirst.coupons, 0);
    UpdatePassAborts(afterFirst, snapshot, entries[1..], catalog);
    ReconcileAborted(p, entries, catalog);
  }


  /** A key that differs from its coupon's code: the fetched coupon named
      after the key is not replaced (the update loop looks up the code) and
      not deleted (the leftover filter looks up the key), so it stays next to
      the new coupon. */
  lemma KeyCodeMismatchKeepsCoupon(key: string, c: Coupon, catalog: seq<Product>)
    requires c.code != key
    ensures var stale := ExternalCoupon(0, CouponParams(key, None, None, None, None));
            Reconcile(Platform([stale], [], 1), [(key, c)], catalog) ==
            Run(Platform([stale, ExternalCoupon(1, Params(c, catalog))], [PromotionCode(1, c.code)], 2), true)
  {
    var stale := ExternalCoupon(0, CouponParams(key, None, None, None, None));
    var p := Platform([stale], [], 1);
    var entries := [(key, c)];
    var snapshot := [stale];
    PageOfOne(stale);
    assert FirstNamed(snapshot, c.code) == None;
    assert TurnDelete(p, snapshot, c.code) == Some(p);
    UpdatePassTurn(p, p, snapshot, entries, catalog);
    var promoted := Platform([stale, ExternalCoupon(1, Params(c, catalog))], [PromotionCode(1, c.code)], 2);
    assert AddPromotionCode(CreateCoupon(p, Params(c, catalog)), 1, c.code) == promoted;
    assert entries[1..] == [];
    assert UpdatePass(promoted, snapshot, [], catalog) == Run(promoted, true);
    ReconcileUnfold(p, entries, catalog);
    assert Keys(entries) == [key];
    assert NamesToDelete(snapshot, [key]) == [] by {
      assert snapshot[1..] == [];
    }
  }


  /** The leftover loop looks each name up in the fetched list, so of two
      fetched coupons sharing an unwanted name only the first listed (the
      newest) is deleted: the second lookup finds the same, already deleted
      coupon, and that error is caught and skipped. */
  lemma LeftoverDuplicateSurvives(name: string, older: CouponParams, newer: CouponParams, catalog: seq<Product>)
    requires older.name == name && newer.name == name
    ensures var p := Platform([ExternalCoupon(0, older), ExternalCoupon(1, newer)], [], 2);
            Reconcile(p, [], catalog) == Run(Platform([ExternalCoupon(0, older)], [], 2), true)
  {
    var a := ExternalCoupon(0, older);
    var b := ExternalCoupon(1, newer);
    var p := Platform([a, b], [], 2);
    var snapshot := [b, a];
    PageOfTwo(a, b);
    assert Keys([]) == [];
    assert UpdatePass(p, snapshot, [], catalog) == Run(p, true);
    ReconcileUnfold(p, [], catalog);
    assert NamesToDelete(snapshot, []) == [name, name] by {
      assert snapshot[1..] == [a] && [a][1..] == [];
      assert NamesToDelete([a], []) == [name] + NamesToDelete([], []);
    }
    assert FirstNamed(snapshot, name) == Some(0);
    var afterOne := Platform([a], [], 2);
    assert RemoveIds([a, b], {1}) == [a] by {
      assert [a, b][1..] == [b] && [b][1..] == [];
      assert RemoveIds([b], {1}) == [] + RemoveIds([], {1});
    }
    assert HasId(p.coupons, 1) by {
      assert p.coupons[1].id == 1;
    }
    assert TurnDelete(p, snapshot, name) == Some(afterOne);
    DeletePassTurn(p, afterOne, snapshot, [name, name]);
    assert [name, name][1..] == [name] && [name][1..] == [];
    assert !HasId([a], 1);
    assert TurnDelete(afterOne, snapshot, name).None?;
    DeletePassTurn(afterOne, afterOne, snapshot, [name]);
  }


  // ---------------------------------------------------------------------------
  // The handler.

  /** The outcome of the first turn's delete, as the create/update loop sees it. */
  function TurnDelete(p: Platform, snapshot: seq<ExternalCoupon>, code: string): Option<Platform>
  {
    var existing := FirstNamed(snapshot, code);
    if existing.Some? then DeleteCoupon(p, snapshot[existing.value].id) else Some(p)
  }

  /** A turn whose delete succeeded hands the rest of the loop the platform
      with the new coupon and its promotion code. */
  lemma UpdatePassTurn(p: Platform, afterDelete: Platform, snapshot: seq<ExternalCoupon>,
                       entries: seq<(string, Coupon)>, catalog: seq<Product>)
    requires entries != [] && TurnDelete(p, snapshot, entries[0].1.code) == Some(afterDelete)
    ensures UpdatePass(p, snapshot, entries, catalog) ==
            UpdatePass(AddPromotionCode(CreateCoupon(afterDelete, Params(entries[0].1, catalog)),
                                        afterDelete.nextId, entries[0].1.code),
                       snapshot, entries[1..], catalog)
  {
  }

  /** A turn whose delete failed ends the loop where it stands. */
  lemma UpdatePassAborts(p: Platform, snapshot: seq<ExternalCoupon>,
                         entries: seq<(string, Coupon)>, catalog: seq<Product>)
    requires entries != [] && TurnDelete(p, snapshot, entries[0].1.code).None?
    ensures UpdatePass(p, snapshot, entries, catalog) == Run(p, false)
  {
  }

  /** A turn of the leftover loop, whatever its delete does. */
  lemma DeletePassTurn(p: Platform, next: Platform, snapshot: seq<ExternalCoupon>, names: seq<string>)
    requires names != []
    requires next == (if TurnDelete(p, snapshot, names[0]).Some? then TurnDelete(p, snapshot, names[0]).value else p)
    ensures DeletePass(p, snapshot, names) == DeletePass(next, snapshot, names[1..])
  {
  }

  /** The create/update loop (lines 53-139) against the platform; false when
      a delete throws, which ends the request. */
  method UpdateLoop(platform: CouponPlatform, snapshot: seq<ExternalCoupon>,
                    entries: seq<(string, Coupon)>, catalog: seq<Product>) returns (completed: bool)
    modifies platform
    ensures Run(platform.State(), completed) == UpdatePass(old(platform.State()), snapshot, entries, catalog)
  {
    var i := 0;
    while i < |entries|
      invariant 0 <= i <= |entries|
      invariant UpdatePass(platform.State(), snapshot, entries[i..], catalog)
                == UpdatePass(old(platform.State()), snapshot, entries, catalog)
    {
      assert entries[i..][0] == entries[i] && entries[i..][1..] == entries[i + 1..];
      ghost var before := platform.State();
      var coupon := entries[i].1;
      var existing := FirstNamed(snapshot, coupon.code);
      if existing.Some? {
        var ok := platform.Delete(snapshot[existing.value].id);
        if !ok {
          UpdatePassAborts(before, snapshot, entries[i..], catalog);
          return false;
        }
      }
      ghost var afterDelete := platform.State();
      var created := platform.Create(Params(coupon, catalog));
      platform.CreatePromotionCode(created.id, coupon.code);
      UpdatePassTurn(before, afterDelete, snapshot, entries[i..], catalog);
      i := i + 1;
    }
    assert entries[i..] == [];
    return true;
  }

  /** The leftover loop (lines 141-155) against the platform: each delete's
      error is caught and the loop goes on. */
  method DeleteLoop(platform: CouponPlatform, snapshot: seq<ExternalCoupon>, names: seq<string>)
    modifies platform
    ensures platform.State() == DeletePass(old(platform.State()), snapshot, names)
  {
    var j := 0;
    while j < |names|
      invariant 0 <= j <= |names|
      invariant DeletePass(platform.State(), snapshot, names[j..])
                == DeletePass(old(platform.State()), snapshot, names)
    {
      assert names[j..][0] == names[j] && names[j..][1..] == names[j + 1..];
      ghost var before := platform.State();
      var existing := FirstNamed(snapshot, names[j]);
      if existing.Some? {
        // try { del } catch { log }: a failed delete is skipped.
        var _ := platform.Delete(snapshot[existing.value].id);
      }
      DeletePassTurn(before, platform.State(), snapshot, names[j..]);
      j := j + 1;
    }
    assert names[j..] == [];
  }

  /** When the update loop stops early, the coupon branch ends with it. */
  lemma ReconcileAborted(p: Platform, entries: seq<(string, Coupon)>, catalog: seq<Product>)
    requires !UpdatePass(p, Page(p.coupons), entries, catalog).completed
    ensures Reconcile(p, entries, catalog) == UpdatePass(p, Page(p.coupons), entries, catalog)
  {
  }

  /** PUT /api/settings. The settings record is written first, so the stored
      value is the request's whatever the coupon calls do; `completed` is
      false when an uncaught platform error ended the request. */
  method HandlePut(settings: SettingsStore, platform: CouponPlatform, catalog: seq<Product>,
                   name: string, value: Value) returns (completed: bool)
    requires name == "coupons" ==> value.CouponTable?
    modifies settings, platform
    ensures settings.records == UpsertRecords(old(settings.records), name, value)
    ensures name == "coupons" ==>
      Run(platform.State(), completed) == Reconcile(old(platform.State()), value.entries, catalog)
    ensures name != "coupons" ==> completed && platform.State() == old(platform.State())
  {
    settings.Put(name, value);
    completed := true;
    if name == "coupons" {
      var entries := value.entries;
      ghost var start := platform.State();
      var snapshot := platform.List();
      completed := UpdateLoop(platform, snapshot, entries, catalog);
      if !completed {
        ReconcileAborted(start, entries, catalog);
        return;
      }
      ReconcileUnfold(start, entries, catalog);
      DeleteLoop(platform, snapshot, NamesToDelete(snapshot, Keys(entries)));
    }
  }

  // ---------------------------------------------------------------------------
  // GET coupons.

  /** An element of the GET response: a coupon, the empty object `{}`, or a
      one-character string (`Object.values` of a string). */
  datatype Element = CouponElement(coupon: Coupon) | EmptyObject | Character(c: char)

  predicate TruthyValue(v: Value)
  {
    match v
    case Text(s) => s != ""
    case Number(n) => n != 0.0
    case CouponTable(_) => true
  }

  /** `Object.values(v)`. */
  function ObjectValues(v: Value): seq<Element>
  {
    match v
    case Text(s) => seq(|s|, i requires 0 <= i < |s| => Character(s[i]))
    case Number(_) => []
    case CouponTable(entries) => seq(|entries|, i requires 0 <= i < |entries| => CouponElement(entries[i].1))
  }

  /** GET with `name=coupons` (lines 164-171):
      `Object.values(settings?.value || { coupons: {} })`. */
  function GetCoupons(records: seq<SettingsRecord>): (r: seq<Element>)
    ensures Lookup(records, "coupons").None? ==> r == [EmptyObject]
    ensures Lookup(records, "coupons").Some? && Lookup(records, "coupons").value.CouponTable? ==>
      var entries := Lookup(records, "coupons").value.entries;
      |r| == |entries| && forall i :: 0 <= i < |entries| ==> r[i] == CouponElement(entries[i].1)
  {
    var stored := Lookup(records, "coupons");
    if stored.None? || !TruthyValue(stored.value) then [EmptyObject]
    else ObjectValues(stored.value)
  }

  /** After a PUT of a coupon table, GET returns its coupons in key order,
      whatever became of the platform calls. */
  lemma GetAfterPut(records: seq<SettingsRecord>, entries: seq<(string, Coupon)>)
    ensures var r := GetCoupons(UpsertRecords(records, "coupons", CouponTable(entries)));
            |r| == |entries| && forall i :: 0 <= i < |entries| ==> r[i] == CouponElement(entries[i].1)
  {
    UpsertLookup(records, "coupons", CouponTable(entries), "coupons");
  }
}
