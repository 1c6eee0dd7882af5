/**
 * The single-record handlers of the models router, as pure functions over the store.
 * Each returns the store after the call together with the result; `persisted` stands for
 * whether the storage collaborator's write returned a record (or success).
 */
module ModelRouter {
  import opened Json
  import opened ModelRecords
  import opened AccessPolicy

  datatype Reply<+T> = Reply(store: Store, result: Result<T, Error>)

  /** GET /: all records for an admin, the caller's own records otherwise. */
  function ListModels(store: Store, caller: Caller): (r: Store)
    ensures forall id :: id in r <==> id in store && (IsAdmin(caller) || IsOwner(caller, store[id]))
    ensures forall id :: id in r ==> r[id] == store[id]
  {
    if IsAdmin(caller) then store
    else map id | id in store && IsOwner(caller, store[id]) :: store[id]
  }

  /** GET /base (admin only): the records the storage layer flags as base models. */
  function ListBaseModels(store: Store, caller: Caller, isBase: Model -> bool): (r: Store)
    requires IsAdmin(caller)
    ensures forall id :: id in r <==> id in store && isBase(store[id])
    ensures forall id :: id in r ==> r[id] == store[id]
  {
    map id | id in store && isBase(store[id]) :: store[id]
  }

  /** POST /create: the creation gate comes before the id lookup, the id lookup before the insert. */
  function Create(store: Store, hasPermission: PermissionOracle, config: Value, caller: Caller,
                  form: ModelForm, persisted: bool): (r: Reply<Model>)
    ensures !MayCreate(hasPermission, caller, config) ==> r == Reply(store, Err(Unauthorized))
    ensures MayCreate(hasPermission, caller, config) && form.id in store ==> r == Reply(store, Err(IdTaken))
    ensures r.result.Ok? <==> MayCreate(hasPermission, caller, config) && form.id !in store && persisted
    ensures r.result.Err? ==> r.store == store
    ensures r.result == Err(CreateFailed) <==> MayCreate(hasPermission, caller, config) && form.id !in store && !persisted
    ensures r.result.Ok? ==>
      && r.result.value.id == form.id
      && r.result.value.userId == caller.id
      && r.result.value.baseModelId == form.baseModelId
      && r.result.value.name == form.name
      && r.result.value.params == form.params
      && r.result.value.meta == form.meta
      && r.result.value.accessControl == form.accessControl
      && r.result.value.isActive == form.isActive
      && r.store == store[form.id := r.result.value]
    ensures WellKeyed(store) ==> WellKeyed(r.store)
  {
    if !MayCreate(hasPermission, caller, config) then Reply(store, Err(Unauthorized))
    else if form.id in store then Reply(store, Err(IdTaken))
    else if !persisted then Reply(store, Err(CreateFailed))
    else
      var m := FromForm(form, caller.id);
      Reply(store[form.id := m], Ok(m))
  }

  /**
   * GET /model?id=: an absent id is an error; a denied read is a successful call with no result.
   * The store is not part of the result: a read never changes it.
   */
  function Get(store: Store, hasAccess: AccessOracle, caller: Caller, id: string): (r: Result<Option<Model>, Error>)
    ensures r == Err(NotFound) <==> id !in store
    ensures r.Err? ==> r.error == NotFound
    ensures r == Ok(None) <==> id in store && !MayAccess(hasAccess, caller, store[id], Read)
    ensures r.Ok? && r.value.Some? <==> id in store && MayAccess(hasAccess, caller, store[id], Read)
    ensures r.Ok? && r.value.Some? ==> r.value.value == store[id]
  {
    if id !in store then Err(NotFound)
    else if MayAccess(hasAccess, caller, store[id], Read) then Ok(Some(store[id]))
    else Ok(None)
  }

  /** POST /model/toggle?id=: flips `isActive` of a record the caller may write. */
  function Toggle(store: Store, hasAccess: AccessOracle, caller: Caller, id: string, persisted: bool): (r: Reply<Model>)
    ensures id !in store ==> r == Reply(store, Err(NotFound))
    ensures id in store && !MayAccess(hasAccess, caller, store[id], Write) ==> r == Reply(store, Err(Unauthorized))
    ensures r.store != store ==> id in store && MayAccess(hasAccess, caller, store[id], Write)
    ensures r.result.Ok? <==> id in store && MayAccess(hasAccess, caller, store[id], Write) && persisted
    ensures r.result.Err? ==> r.store == store
    ensures id in store && MayAccess(hasAccess, caller, store[id], Write) && !persisted ==> r.result == Err(UpdateFailed)
    ensures r.result.Ok? ==>
      && r.result.value == store[id].(isActive := !store[id].isActive)
      && r.store == store[id := r.result.value]
    ensures WellKeyed(store) ==> WellKeyed(r.store)
  {
    if id !in store then Reply(store, Err(NotFound))
    else if !MayAccess(hasAccess, caller, store[id], Write) then Reply(store, Err(Unauthorized))
    else if !persisted then Reply(store, Err(UpdateFailed))
    else
      var m := store[id].(isActive := !store[id].isActive);
      Reply(store[id := m], Ok(m))
  }

  /**
   * POST /model/update?id=: replaces the mutable fields of a record the caller may write.
   * A storage update that returns nothing is passed through as a successful call with no result.
   */
  function Update(store: Store, hasAccess: AccessOracle, caller: Caller, id: string, form: ModelForm,
                  persisted: bool): (r: Reply<Option<Model>>)
    ensures id !in store ==> r == Reply(store, Err(NotFound))
    ensures id in store && !MayAccess(hasAccess, caller, store[id], Write) ==> r == Reply(store, Err(Prohibited))
    ensures r.store != store ==> id in store && MayAccess(hasAccess, caller, store[id], Write)
    ensures r.result.Ok? <==> id in store && MayAccess(hasAccess, caller, store[id], Write)
    ensures r.result == Ok(None) ==> r.store == store
    ensures r.result.Err? ==> r.store == store
    ensures r.result.Ok? && r.result.value.Some? <==> r.result.Ok? && persisted
    ensures r.result.Ok? && r.result.value.Some? ==>
      && r.result.value.value.id == store[id].id
      && r.result.value.value.userId == store[id].userId
      && r.result.value.value.baseModelId == form.baseModelId
      && r.result.value.value.name == form.name
      && r.result.value.value.params == form.params
      && r.result.value.value.meta == form.meta
      && r.result.value.value.accessControl == form.accessControl
      && r.result.value.value.isActive == form.isActive
      && r.store == store[id := r.result.value.value]
    ensures WellKeyed(store) ==> WellKeyed(r.store)
  {
    if id !in store then Reply(store, Err(NotFound))
    else if !MayAccess(hasAccess, caller, store[id], Write) then Reply(store, Err(Prohibited))
    else if !persisted then Reply(store, Ok(None))
    else
      var m := Replaced(store[id], form);
      Reply(store[id := m], Ok(Some(m)))
  }

  /** DELETE /model/delete?id=: the delete check is the write check; the result is storage's success flag. */
  function Delete(store: Store, hasAccess: AccessOracle, caller: Caller, id: string, persisted: bool): (r: Reply<bool>)
    ensures id !in store ==> r == Reply(store, Err(NotFound))
    ensures id in store && !MayAccess(hasAccess, caller, store[id], Write) ==> r == Reply(store, Err(Unauthorized))
    ensures r.store != store ==> id in store && MayAccess(hasAccess, caller, store[id], Write)
    ensures r.result.Ok? <==> id in store && MayAccess(hasAccess, caller, store[id], Write)
    ensures r.result == Ok(true) <==> r.result.Ok? && persisted
    ensures r.result == Ok(true) ==> r.store == store - {id} && id !in r.store
    ensures r.result != Ok(true) ==> r.store == store
    ensures WellKeyed(store) ==> WellKeyed(r.store)
  {
    if id !in store then Reply(store, Err(NotFound))
    else if !MayAccess(hasAccess, caller, store[id], Write) then Reply(store, Err(Unauthorized))
    else if !persisted then Reply(store, Ok(false))
    else Reply(store - {id}, Ok(true))
  }

  /** DELETE /delete/all (admin only). */
  function DeleteAll(store: Store, caller: Caller, persisted: bool): (r: Reply<bool>)
    requires IsAdmin(caller)
    ensures r.result == Ok(persisted)
    ensures persisted ==> |r.store| == 0
    ensures !persisted ==> r.store == store
  {
    if persisted then Reply(map[], Ok(true)) else Reply(store, Ok(false))
  }

  /** A mutation of an existing record by a caller who is neither admin, owner nor write-granted is refused. */
  lemma MutationGuard(store: Store, hasAccess: AccessOracle, caller: Caller, id: string, form: ModelForm, persisted: bool)
    requires id in store && !MayAccess(hasAccess, caller, store[id], Write)
    ensures Toggle(store, hasAccess, caller, id, persisted) == Reply(store, Err(Unauthorized))
    ensures Update(store, hasAccess, caller, id, form, persisted) == Reply(store, Err(Prohibited))
    ensures Delete(store, hasAccess, caller, id, persisted) == Reply(store, Err(Unauthorized))
  {
  }

  /** The creator reads back what was created. */
  lemma CreateThenGet(store: Store, hasPermission: PermissionOracle, config: Value, caller: Caller,
                      form: ModelForm, hasAccess: AccessOracle)
    requires Create(store, hasPermission, config, caller, form, true).result.Ok?
    ensures var r := Create(store, hasPermission, config, caller, form, true);
      Get(r.store, hasAccess, caller, form.id) == Ok(Some(r.result.value))
  {
  }

  /** Creating the same id twice: the second call is refused and the first record stays. */
  lemma CreateTwice(store: Store, hasPermission: PermissionOracle, config: Value, caller: Caller,
                    form: ModelForm, other: ModelForm, persisted: bool)
    requires Create(store, hasPermission, config, caller, form, true).result.Ok?
    requires other.id == form.id
    ensures var s := Create(store, hasPermission, config, caller, form, true).store;
      Create(s, hasPermission, config, caller, other, persisted) == Reply(s, Err(IdTaken))
  {
  }

  /** Toggling twice restores the store. */
  lemma ToggleTwice(store: Store, hasAccess: AccessOracle, caller: Caller, id: string)
    requires Toggle(store, hasAccess, caller, id, true).result.Ok?
    ensures var s := Toggle(store, hasAccess, caller, id, true).store;
      Toggle(s, hasAccess, caller, id, true).store == store
  {
  }

  /** An admin or the owner reads back what an update wrote. */
  lemma UpdateThenGet(store: Store, hasAccess: AccessOracle, caller: Caller, id: string, form: ModelForm)
    requires id in store && (IsAdmin(caller) || IsOwner(caller, store[id]))
    ensures var r := Update(store, hasAccess, caller, id, form, true);
      r.result.Ok? && r.result.value.Some? && Get(r.store, hasAccess, caller, id) == Ok(r.result.value)
  {
  }

  /** After a successful delete the id is not found, and it is free for a new create. */
  lemma DeleteThenGet(store: Store, hasAccess: AccessOracle, caller: Caller, id: string,
                      hasPermission: PermissionOracle, config: Value, form: ModelForm)
    requires Delete(store, hasAccess, caller, id, true).result == Ok(true)
    requires form.id == id && MayCreate(hasPermission, caller, config)
    ensures var s := Delete(store, hasAccess, caller, id, true).store;
      Get(s, hasAccess, caller, id) == Err(NotFound)
      && Create(s, hasPermission, config, caller, form, true).result.Ok?
  {
  }

  /** After delete-all, an admin's listing is empty. */
  lemma DeleteAllThenList(store: Store, admin: Caller)
    requires IsAdmin(admin)
    ensures ListModels(DeleteAll(store, admin, true).store, admin) == map[]
  {
  }
}
