/** `/api/stores`: listing the stores of the caller's business, and an owner opening one. */
module StoresRoute {
  import opened Common
  import opened Records

  /** The response of an opening and the tables after it. */
  datatype Opened = Opened(store: Store, tables: Tables)

  const NameRequired: string := "Mağaza adı gereklidir"
  const NameTaken: string := "Mağaza adı zaten mevcut"

  /** GET: any signed-in caller; the stores of its business. */
  function List(p: Option<Principal>, t: Tables): (r: Response<seq<Store>>)
    ensures r.Err? <==> p.None?
    ensures r.Err? ==> r == Err(401, Unauthorized)
    ensures r.Ok? ==> r.status == 200 && IsSubsequence(r.body, t.stores)
    ensures r.Ok? ==> forall s :: s in r.body <==> s in t.stores && s.business == p.value.businessId
  {
    if p.None? then Err(401, Unauthorized)
    else Ok(200, Filter(t.stores, (s: Store) => s.business == p.value.businessId))
  }

  /** Whether the business already has a store of that name. */
  predicate NameInUse(stores: seq<Store>, business: Id, name: string) {
    exists s :: s in stores && s.business == business && s.name == name
  }

  /** POST: owners only, then a name, then a name unused in the caller's business, then
      saving (every failure, the unique index's included, is 500). */
  function Create(p: Option<Principal>, name: string, t: Tables, freshId: Id, fault: Option<int>)
    : (r: Response<Opened>)
    ensures !IsOwner(p) ==> r == Err(401, Unauthorized)
    ensures IsOwner(p) && name == "" ==> r == Err(400, NameRequired)
    ensures r == Err(400, NameTaken) <==>
      IsOwner(p) && name != "" && NameInUse(t.stores, p.value.businessId, name)
    ensures (IsOwner(p) && name != "" && !NameInUse(t.stores, p.value.businessId, name) && fault.Some?) ==>
      r == Err(500, InternalError)
    ensures r.Ok? <==> IsOwner(p) && name != "" && !NameInUse(t.stores, p.value.businessId, name) && fault.None?
    ensures r.Ok? ==> r.status == 201 && r.body.store == Store(freshId, name, p.value.businessId)
    ensures r.Ok? ==> r.body.tables == t.(stores := t.stores + [r.body.store])
  {
    if !IsOwner(p) then Err(401, Unauthorized)
    else if name == "" then Err(400, NameRequired)
    else if First(t.stores, (s: Store) => s.business == p.value.businessId && s.name == name).Some? then
      Err(400, NameTaken)
    else if fault.Some? then Err(500, InternalError)
    else
      var s := Store(freshId, name, p.value.businessId);
      Ok(201, Opened(s, t.(stores := t.stores + [s])))
  }

  /** A name used only by other businesses does not stop an owner from opening a store of
      that name, and afterwards both businesses have one. */
  lemma NamesArePerBusiness(p: Principal, name: string, t: Tables, freshId: Id, other: Store)
    requires p.role == BusinessRole && name != ""
    requires other in t.stores && other.name == name && other.business != p.businessId
    requires !NameInUse(t.stores, p.businessId, name)
    ensures Create(Some(p), name, t, freshId, None).Ok?
    ensures var t' := Create(Some(p), name, t, freshId, None).body.tables;
      NameInUse(t'.stores, p.businessId, name) && NameInUse(t'.stores, other.business, name)
  {
    var t' := Create(Some(p), name, t, freshId, None).body.tables;
    assert t'.stores[|t.stores|] == Store(freshId, name, p.businessId);
  }
}
