/** The REST controller for Ressarcimento (RessarcimentoResource): five endpoints. Each is a
    short decision table: a check on the id, then a check on the caller's permission, then a
    write to the repository. The rules are first stated as functions over the store; the class
    at the end holds the store and performs them in place. */
module Resource {
  import opened Domain
  import opened Repository
  import Decimal

  /** The permission levels allowed to create records (canCRAll). */
  const CanCRAll: seq<NivelPermissao> := [ADMIN, OPERADOR]

  /** Exactly ADMIN and OPERADOR may create records. */
  lemma CanCRAllLevels()
    ensures |CanCRAll| == 2 && CanCRAll[0] == ADMIN && CanCRAll[1] == OPERADOR
    ensures forall level :: level in CanCRAll <==> level == ADMIN || level == OPERADOR
  {
  }

  /** The path under which created records are announced in the Location header. */
  const ResourcePath: string := "/api/ressarcimentos/"

  /** UserAccountPermissionChecker.checkPermissao(conta, levels): foreign code whose body is not
      part of this model; every property below holds whatever this function answers. */
  type PermissionChecker = (Conta, seq<NivelPermissao>) -> bool

  /** The Location header of a created record. */
  function Location(id: Id): (loc: string)
    ensures |loc| > |ResourcePath| && loc[..|ResourcePath|] == ResourcePath
  {
    ResourcePath + Decimal.IdToString(id)
  }

  /** Two created records are never announced under the same location. */
  lemma LocationIdentifiesRecord(a: Id, b: Id)
    ensures Location(a) == Location(b) ==> a == b
  {
    if Location(a) == Location(b) {
      assert Location(a)[|ResourcePath|..] == Decimal.IdToString(a);
      assert Location(b)[|ResourcePath|..] == Decimal.IdToString(b);
      Decimal.IdToStringInjective(a, b);
    }
  }

  /** The answer of an endpoint together with the store it leaves behind. */
  datatype Step = Step(out: Outcome, store: Store)

  /** POST /ressarcimentos. freshId is the id the repository assigns when it saves a new record. */
  function Create(store: Store, ressarcimento: Ressarcimento, currentConta: Conta,
                  checkPermissao: PermissionChecker, freshId: Id): (r: Step)
    requires freshId !in store
    // a record that already has an id is refused before the caller's permission is consulted
    ensures ressarcimento.id.Some? ==> r == Step(BadRequest("idexists"), store)
    ensures ressarcimento.id.None? && !checkPermissao(currentConta, CanCRAll) ==>
      r == Step(NotAuthorized, store)
    ensures r.out.Created? <==> ressarcimento.id.None? && checkPermissao(currentConta, CanCRAll)
    // a created record is the request's record under its new id, announced at its location,
    // and it is the one entry the store gains
    ensures r.out.Created? ==>
      r.out.rec.id == Some(freshId) && r.out.rec.conta == ressarcimento.conta &&
      r.out.rec.attributes == ressarcimento.attributes &&
      r.out.location == ResourcePath + Decimal.IdToString(r.out.rec.id.value) &&
      r.store.Keys == store.Keys + {freshId} && r.store[freshId] == r.out.rec &&
      (forall k :: k in store ==> r.store[k] == store[k])
    ensures WellKeyed(store) ==> WellKeyed(r.store)
  {
    if ressarcimento.id.Some? then Step(BadRequest("idexists"), store)
    else if !checkPermissao(currentConta, CanCRAll) then Step(NotAuthorized, store)
    else
      var result := ressarcimento.(id := Some(freshId));
      Step(Created(result, Location(freshId)), store[freshId := result])
  }

  /** PUT /ressarcimentos. Saving a record whose id is not stored yet inserts it. */
  function Update(store: Store, ressarcimento: Ressarcimento, currentConta: Conta): (r: Step)
    // a record without id is refused before the caller's permission is consulted
    ensures ressarcimento.id.None? ==> r == Step(BadRequest("idnull"), store)
    // only ADMIN may update; OPERADOR, who may create, may not
    ensures ressarcimento.id.Some? && currentConta.nivelPermissao != ADMIN ==>
      r == Step(NotAuthorized, store)
    ensures r.out.Ok? <==> ressarcimento.id.Some? && currentConta.nivelPermissao == ADMIN
    ensures r.out.Ok? ==>
      var id := ressarcimento.id.value;
      r.out.rec == ressarcimento &&
      r.store.Keys == store.Keys + {id} && r.store[id] == ressarcimento &&
      (forall k :: k in store && k != id ==> r.store[k] == store[k])
    ensures WellKeyed(store) ==> WellKeyed(r.store)
  {
    if ressarcimento.id.None? then Step(BadRequest("idnull"), store)
    else if currentConta.nivelPermissao != ADMIN then Step(NotAuthorized, store)
    else Step(Ok(ressarcimento), store[ressarcimento.id.value := ressarcimento])
  }

  /** GET /ressarcimentos. The controller asks checkPermissao and, for a caller without
      permission, builds a stream filtered to the caller's own records, but discards it:
      every caller receives the whole table (see the finding below). */
  function GetAll(store: Store, currentConta: Conta, checkPermissao: PermissionChecker): (r: Outcome)
    ensures r.OkList? && |r.recs| == |store|
    ensures forall k :: k in store ==> store[k] in r.recs
    ensures forall i :: 0 <= i < |r.recs| ==>
      SortedKeys(store.Keys)[i] in store && r.recs[i] == store[SortedKeys(store.Keys)[i]]
  {
    OkList(FindAll(store))
  }

  /** The list endpoint answers every caller alike, whatever checkPermissao says. */
  lemma GetAllIgnoresCaller(store: Store, c1: Conta, c2: Conta, p1: PermissionChecker, p2: PermissionChecker)
    ensures GetAll(store, c1, p1) == GetAll(store, c2, p2)
  {
  }

  /** GET /ressarcimentos/{id}. */
  function Get(store: Store, id: Id, currentConta: Conta): (r: Outcome)
    ensures r.NotFound? <==> id !in store
    // a stored record is shown to its owner and to every level allowed to create records
    ensures r.Ok? <==> id in store && (store[id].conta == currentConta || currentConta.nivelPermissao in CanCRAll)
    ensures r.Ok? ==> r.rec == store[id]
    ensures r.NotAuthorized? <==>
      id in store && store[id].conta != currentConta && currentConta.nivelPermissao !in CanCRAll
    ensures r.Ok? || r.NotFound? || r.NotAuthorized?
  {
    if id in store then
      var found := store[id];
      if found.conta == currentConta || currentConta.nivelPermissao == ADMIN ||
         currentConta.nivelPermissao == OPERADOR
      then Ok(found)
      else NotAuthorized
    else NotFound
  }

  /** DELETE /ressarcimentos/{id}. Deleting an id that is not stored changes nothing. */
  function Delete(store: Store, id: Id, currentConta: Conta): (r: Step)
    ensures currentConta.nivelPermissao != ADMIN ==> r == Step(NotAuthorized, store)
    ensures currentConta.nivelPermissao == ADMIN ==>
      r.out == OkDeleted && r.store.Keys == store.Keys - {id} &&
      (forall k :: k in r.store ==> r.store[k] == store[k])
    ensures WellKeyed(store) ==> WellKeyed(r.store)
  {
    if currentConta.nivelPermissao != ADMIN then Step(NotAuthorized, store)
    else Step(OkDeleted, store - {id})
  }

  /** A created record can be read back at once, by exactly the callers who may read it. */
  lemma CreateThenGet(store: Store, ressarcimento: Ressarcimento, creator: Conta,
                      checkPermissao: PermissionChecker, freshId: Id, reader: Conta)
    requires freshId !in store
    requires Create(store, ressarcimento, creator, checkPermissao, freshId).out.Created?
    ensures var s := Create(store, ressarcimento, creator, checkPermissao, freshId);
      Get(s.store, freshId, reader) ==
        if ressarcimento.conta == reader || reader.nivelPermissao in CanCRAll
        then Ok(s.out.rec) else NotAuthorized
  {
  }

  /** An update by ADMIN is what ADMIN reads afterwards. */
  lemma UpdateThenGet(store: Store, ressarcimento: Ressarcimento, admin: Conta)
    requires ressarcimento.id.Some? && admin.nivelPermissao == ADMIN
    ensures Get(Update(store, ressarcimento, admin).store, ressarcimento.id.value, admin) == Ok(ressarcimento)
  {
  }

  /** After a delete by ADMIN the id is not found by anyone, and every other id answers as before. */
  lemma DeleteThenGet(store: Store, id: Id, admin: Conta, reader: Conta, other: Id)
    requires admin.nivelPermissao == ADMIN
    ensures Get(Delete(store, id, admin).store, id, reader) == NotFound
    ensures other != id ==> Get(Delete(store, id, admin).store, other, reader) == Get(store, other, reader)
  {
  }

  // ---------------------------------------------------------------------------------------
  // The list endpoint with the ownership filter of its discarded stream applied.

  /** The records of recs owned by conta, in their order (see OwnedByAppend). */
  function OwnedBy(recs: seq<Ressarcimento>, conta: Conta): (rs: seq<Ressarcimento>)
    ensures |rs| <= |recs|
    ensures forall x :: x in rs <==> x in recs && x.conta == conta
    // each kept record occurs as often as in recs, every other record not at all
    ensures forall x :: multiset(rs)[x] == if x.conta == conta then multiset(recs)[x] else 0
  {
    if recs == [] then []
    else
      assert recs == [recs[0]] + recs[1..];
      if recs[0].conta == conta then [recs[0]] + OwnedBy(recs[1..], conta)
      else OwnedBy(recs[1..], conta)
  }

  /** A single record is kept exactly when the account owns it. */
  lemma OwnedBySingle(x: Ressarcimento, conta: Conta)
    ensures OwnedBy([x], conta) == if x.conta == conta then [x] else []
  {
    assert [x][1..] == [];
  }

  /** The filter keeps the order: filtering a concatenation concatenates the filtered parts.
      With OwnedBySingle this determines OwnedBy of every sequence. */
  lemma {:induction false} OwnedByAppend(a: seq<Ressarcimento>, b: seq<Ressarcimento>, conta: Conta)
    ensures OwnedBy(a + b, conta) == OwnedBy(a, conta) + OwnedBy(b, conta)
  {
    if a == [] {
      assert a + b == b;
    } else {
      assert (a + b)[0] == a[0];
      assert (a + b)[1..] == a[1..] + b;
      OwnedByAppend(a[1..], b, conta);
    }
  }

  /** GET /ressarcimentos as the discarded filter shows it was meant: a caller without
      permission receives only the records of its own account. */
  function GetAllOwnOnly(store: Store, currentConta: Conta, checkPermissao: PermissionChecker): (r: Outcome)
    ensures r.OkList? && |r.recs| <= |store|
    // only stored records are listed
    ensures forall x :: x in r.recs ==> x in store.Values
    // a permitted caller gets exactly what findAll lists
    ensures checkPermissao(currentConta, CanCRAll) ==> r.recs == FindAll(store)
    // a refused caller gets exactly the records of its own account, as often as findAll lists
    // them, in findAll's order
    ensures !checkPermissao(currentConta, CanCRAll) ==>
      (forall x :: x in r.recs ==> x.conta == currentConta) &&
      (forall k :: k in store && store[k].conta == currentConta ==> store[k] in r.recs) &&
      (forall x :: multiset(r.recs)[x] ==
         if x.conta == currentConta then multiset(FindAll(store))[x] else 0) &&
      r.recs == OwnedBy(FindAll(store), currentConta)
  {
    var all := FindAll(store);
    var ks := SortedKeys(store.Keys);
    assert forall x :: x in all ==> x in store.Values by {
      forall x | x in all ensures x in store.Values {
        var i :| 0 <= i < |all| && all[i] == x;
        assert ks[i] in store && store[ks[i]] == x;
      }
    }
    if checkPermissao(currentConta, CanCRAll) then OkList(all)
    else OkList(OwnedBy(all, currentConta))
  }

  /** As written, a caller without permission is shown the records of other accounts,
      which the intended endpoint withholds. */
  lemma GetAllShowsForeignRecords(store: Store, currentConta: Conta, checkPermissao: PermissionChecker, k: Id)
    requires !checkPermissao(currentConta, CanCRAll)
    requires k in store && store[k].conta != currentConta
    ensures store[k] in GetAll(store, currentConta, checkPermissao).recs
    ensures store[k] !in GetAllOwnOnly(store, currentConta, checkPermissao).recs
  {
  }

  /** A concrete instance: an account of level Other, refused by the checker, lists a record
      of another account. */
  lemma GetAllShowsForeignRecordsExample()
    ensures var owner := Conta(1, OPERADOR);
      var caller := Conta(2, Other);
      var rec := Ressarcimento(Some(7), owner, "");
      var refuseAll: PermissionChecker := (c, levels) => false;
      GetAll(map[7 := rec], caller, refuseAll) == OkList([rec]) &&
      GetAllOwnOnly(map[7 := rec], caller, refuseAll) == OkList([])
  {
    var owner := Conta(1, OPERADOR);
    var caller := Conta(2, Other);
    var rec := Ressarcimento(Some(7), owner, "");
    var store := map[7 := rec];
    assert store.Keys == {7};
    assert SortedKeys(store.Keys) == [7];
    assert FindAll(store) == [rec];
  }

  // ---------------------------------------------------------------------------------------

  /** The controller with the repository it writes to. */
  class RessarcimentoResource {
    /** The contents of ressarcimentoRepository. */
    var store: Store
    /** UserAccountPermissionChecker.checkPermissao. */
    const checkPermissao: PermissionChecker

    ghost predicate Valid()
      reads this
    {
      WellKeyed(store)
    }

    constructor (repository: Store, checker: PermissionChecker)
      requires WellKeyed(repository)
      ensures Valid() && store == repository && checkPermissao == checker
    {
      store := repository;
      checkPermissao := checker;
    }

    /** createRessarcimento. currentConta is what contaRepository.findByUserIsCurrentUser()
        returns; freshId is the id the repository's save assigns. */
    method CreateRessarcimento(ressarcimento: Ressarcimento, currentConta: Conta, freshId: Id)
      returns (out: Outcome)
      requires Valid() && freshId !in store
      modifies this
      ensures Valid()
      ensures Step(out, store) == Create(old(store), ressarcimento, currentConta, checkPermissao, freshId)
    {
      if ressarcimento.id.Some? {
        return BadRequest("idexists");
      }
      if !checkPermissao(currentConta, CanCRAll) {
        return NotAuthorized;
      }
      var result := ressarcimento.(id := Some(freshId));
      store := store[freshId := result];
      return Created(result, Location(freshId));
    }

    /** updateRessarcimento. */
    method UpdateRessarcimento(ressarcimento: Ressarcimento, currentConta: Conta) returns (out: Outcome)
      requires Valid()
      modifies this
      ensures Valid()
      ensures Step(out, store) == Update(old(store), ressarcimento, currentConta)
    {
      if ressarcimento.id.None? {
        return BadRequest("idnull");
      }
      if currentConta.nivelPermissao != ADMIN {
        return NotAuthorized;
      }
      store := store[ressarcimento.id.value := ressarcimento];
      return Ok(ressarcimento);
    }

    /** getAllRessarcimentos; it changes nothing. */
    method GetAllRessarcimentos(currentConta: Conta) returns (out: Outcome)
      requires Valid()
      ensures out == GetAll(store, currentConta, checkPermissao)
    {
      out := OkList(FindAll(store));
    }

    /** getRessarcimento; it changes nothing. */
    method GetRessarcimento(id: Id, currentConta: Conta) returns (out: Outcome)
      requires Valid()
      ensures out == Get(store, id, currentConta)
    {
      if id in store {
        var found := store[id];
        if found.conta == currentConta || currentConta.nivelPermissao == ADMIN ||
           currentConta.nivelPermissao == OPERADOR {
          return Ok(found);
        }
        return NotAuthorized;
      }
      return NotFound;
    }

    /** deleteRessarcimento. */
    method DeleteRessarcimento(id: Id, currentConta: Conta) returns (out: Outcome)
      requires Valid()
      modifies this
      ensures Valid()
      ensures Step(out, store) == Delete(old(store), id, currentConta)
    {
      if currentConta.nivelPermissao != ADMIN {
        return NotAuthorized;
      }
      store := store - {id};
      return OkDeleted;
    }
  }
}
