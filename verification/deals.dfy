/** The Deal model of db/models/Deal.js: the document, its participant and
    role checks, and the pre-save hook that stamps a sequential `dId`. */
module Deals {
  import opened Common
  import Counters

  /** The counter document the pre-save hook advances. */
  const DealsCounter: string := "deals"

  /** A deal document. `dId` is `None` until the first save stamps it;
      `name` is `None` when the field was never set. */
  datatype Deal = Deal(
    id: Id,
    dId: Option<int>,
    name: Option<string>,
    seller: Id,
    buyer: Id,
    messages: seq<Id>,
    status: Option<string>,
    acceptedBySeller: bool,
    acceptedByBuyer: bool,
    createdAt: int)

  /** What `getUserRole` answers; `NoRole` stands for its `false`. */
  datatype Role = Seller | Buyer | NoRole

  /** The two parties of a deal. */
  function Parties(d: Deal): set<Id> {
    {d.seller, d.buyer}
  }

  /** `userHasAccess`: the user is the seller or the buyer of the deal. */
  predicate UserHasAccess(d: Deal, user: Id)
    ensures UserHasAccess(d, user) <==> user in Parties(d)
  {
    d.seller == user || d.buyer == user
  }

  /** `getUserRole`: the seller test comes first, so a user who is both seller
      and buyer is reported as the seller. */
  function GetUserRole(d: Deal, user: Id): (r: Role)
    ensures r == Seller <==> d.seller == user
    ensures r == Buyer <==> d.seller != user && d.buyer == user
    ensures r != NoRole <==> UserHasAccess(d, user)
  {
    if d.seller == user then Seller
    else if d.buyer == user then Buyer
    else NoRole
  }

  /** The `required: true` validator on a String path rejects a missing value
      and the empty string. */
  predicate NameValid(name: Option<string>) {
    name.Some? && name.value != ""
  }

  /** A freshly constructed document: the schema defaults apply (no messages,
      no status, both acceptance flags false) and no `dId` yet. */
  function NewDeal(id: Id, name: Option<string>, seller: Id, buyer: Id, now: int): Deal {
    Deal(id, None, name, seller, buyer, [], None, false, false, now)
  }

  /** The persisted state the model reads and writes: the counter collection
      and the deal collection keyed by `_id`. */
  datatype Store = Store(counters: Counters.Counters, deals: map<Id, Deal>)

  datatype SaveError =
    | ValidationError(path: string)  // a schema validator rejected the document
    | StorageError(msg: string)      // the database reported an error
    | DuplicateKey(id: Id)           // an insert hit an `_id` that is already stored

  /** The store after a save and what the save reported. A failed save may
      still have advanced the counter. */
  datatype Saved = Saved(store: Store, outcome: Result<Deal, SaveError>)

  /** `doc.save()`. Validation runs first; for a new document the pre-save hook
      then advances the `deals` counter and stamps the new value into `dId`
      (aborting with the counter update's own error); finally the document is
      inserted (new) or written over its stored version (not new).
      `counterDb` is what the counter update reports, `writeDb` what the final
      write reports. */
  function Save(st: Store, d: Deal, isNew: bool, counterDb: DbOutcome, writeDb: DbOutcome): (r: Saved)
    // validation failures and counter failures leave everything as it was
    ensures !NameValid(d.name) ==> r == Saved(st, Err(ValidationError("name")))
    ensures NameValid(d.name) && isNew && counterDb.DbError? ==>
      r == Saved(st, Err(StorageError(counterDb.msg)))
    // a new document always consumes exactly one counter value once its
    // counter update succeeded, even when the insert then fails
    ensures NameValid(d.name) && isNew && counterDb.DbOk? ==>
      && Counters.Seq(r.store.counters, DealsCounter) == Counters.Seq(st.counters, DealsCounter) + 1
      && (forall n :: n != DealsCounter ==> Counters.Seq(r.store.counters, n) == Counters.Seq(st.counters, n))
    // a document that is not new never touches the counters or its dId
    ensures !isNew ==> r.store.counters == st.counters
    ensures !isNew && r.outcome.Ok? ==> r.outcome.value == d
    // what a successful save returns is what is now stored under its id
    ensures r.outcome.Ok? ==>
      && r.outcome.value.id == d.id
      && r.store.deals == st.deals[d.id := r.outcome.value]
      && r.outcome.value == d.(dId := r.outcome.value.dId)
    ensures r.outcome.Ok? && isNew ==>
      r.outcome.value.dId == Some(Counters.Seq(r.store.counters, DealsCounter))
    // a failed save stores nothing
    ensures r.outcome.Err? ==> r.store.deals == st.deals
    // a valid document saves whenever the database answers and, for a new
    // document, its `_id` is not taken yet
    ensures NameValid(d.name) && writeDb.DbOk? && (isNew ==> counterDb.DbOk? && d.id !in st.deals) ==>
      r.outcome.Ok?
    ensures NameValid(d.name) && isNew && counterDb.DbOk? && d.id in st.deals ==>
      r.outcome == Err(DuplicateKey(d.id))
    ensures NameValid(d.name) && writeDb.DbError? && (isNew ==> counterDb.DbOk? && d.id !in st.deals) ==>
      r.outcome == Err(StorageError(writeDb.msg))
  {
    if !NameValid(d.name) then Saved(st, Err(ValidationError("name")))
    else if !isNew then
      match writeDb
      case DbError(msg) => Saved(st, Err(StorageError(msg)))
      case DbOk => Saved(Store(st.counters, st.deals[d.id := d]), Ok(d))
    else
      match counterDb
      case DbError(msg) => Saved(st, Err(StorageError(msg)))
      case DbOk =>
        var a := Counters.Allocate(st.counters, DealsCounter);
        var counters := a.counters;
        var stamped := d.(dId := Some(a.value));
        var st1 := Store(counters, st.deals);
        if d.id in st.deals then Saved(st1, Err(DuplicateKey(d.id)))
        else match writeDb
          case DbError(msg) => Saved(st1, Err(StorageError(msg)))
          case DbOk => Saved(Store(counters, st.deals[d.id := stamped]), Ok(stamped))
  }

  /** Creating a deal: construct a fresh document and save it as new. */
  function CreateDeal(st: Store, id: Id, name: Option<string>, seller: Id, buyer: Id, now: int,
                      counterDb: DbOutcome, writeDb: DbOutcome): Saved
  {
    Save(st, NewDeal(id, name, seller, buyer, now), true, counterDb, writeDb)
  }

  /** A created deal starts unaccepted by both sides, keeps the name and
      parties it was given, and carries the next `deals` counter value. */
  lemma CreatedDealDefaults(st: Store, id: Id, name: Option<string>, seller: Id, buyer: Id, now: int,
                            counterDb: DbOutcome, writeDb: DbOutcome)
    ensures var r := CreateDeal(st, id, name, seller, buyer, now, counterDb, writeDb);
      r.outcome.Ok? ==>
        && !r.outcome.value.acceptedBySeller && !r.outcome.value.acceptedByBuyer
        && r.outcome.value.name == name && NameValid(name)
        && r.outcome.value.seller == seller && r.outcome.value.buyer == buyer
        && r.outcome.value.dId == Some(Counters.Seq(st.counters, DealsCounter) + 1)
        && r.outcome.value.id in r.store.deals
  {
  }

  /** With no `deals` counter yet, the first successfully created deal gets
      `dId` 1. */
  lemma FirstDealGetsOne(st: Store, id: Id, name: Option<string>, seller: Id, buyer: Id, now: int)
    requires DealsCounter !in st.counters
    requires NameValid(name) && id !in st.deals
    ensures CreateDeal(st, id, name, seller, buyer, now, DbOk, DbOk).outcome == Ok(
      NewDeal(id, name, seller, buyer, now).(dId := Some(1)))
  {
  }

  /** The store invariant the hook maintains: the counter never went below its
      default 0, every stored deal sits under its
      own id, carries a `dId` the counter has already handed out, and no two
      stored deals share a `dId`. */
  ghost predicate Valid(st: Store) {
    && Counters.Seq(st.counters, DealsCounter) >= 0
    && (forall k :: k in st.deals ==> st.deals[k].id == k)
    && (forall k :: k in st.deals ==>
          st.deals[k].dId.Some? && 1 <= st.deals[k].dId.value <= Counters.Seq(st.counters, DealsCounter))
    && (forall k1, k2 :: k1 in st.deals && k2 in st.deals && k1 != k2 ==>
          st.deals[k1].dId != st.deals[k2].dId)
  }

  /** Every save keeps the invariant, provided a save of a stored (not new)
      document does not change its `dId`. Failed saves keep it too, since a
      consumed counter value that is never stored only leaves a gap. */
  lemma SavePreservesValid(st: Store, d: Deal, isNew: bool, counterDb: DbOutcome, writeDb: DbOutcome)
    requires Valid(st)
    requires !isNew ==> d.id in st.deals && d.dId == st.deals[d.id].dId
    ensures Valid(Save(st, d, isNew, counterDb, writeDb).store)
  {
    var r := Save(st, d, isNew, counterDb, writeDb);
    var before := Counters.Seq(st.counters, DealsCounter);
    var after := Counters.Seq(r.store.counters, DealsCounter);
    assert before <= after;
    forall k | k in r.store.deals
      ensures r.store.deals[k].dId.Some? && 1 <= r.store.deals[k].dId.value <= after
    {
      if k != d.id || r.outcome.Err? {
        assert r.store.deals[k] == st.deals[k];
      }
    }
  }

  /** One creation request: what `CreateDeal` is called with. */
  datatype CreateRequest = CreateRequest(
    id: Id, name: Option<string>, seller: Id, buyer: Id, now: int,
    counterDb: DbOutcome, writeDb: DbOutcome)

  /** The store after a run of creations and what each creation reported. */
  datatype Created = Created(store: Store, outcomes: seq<Result<Deal, SaveError>>)

  /** Creation requests applied one after another; the final store and what
      each request reported. Successful creations carry values the counter
      had not handed out before, in strictly increasing order, so no `dId`
      repeats; failed ones may leave gaps. */
  function CreateAll(st: Store, reqs: seq<CreateRequest>): (r: Created)
    ensures |r.outcomes| == |reqs|
    ensures Counters.Seq(r.store.counters, DealsCounter) >= Counters.Seq(st.counters, DealsCounter)
    ensures forall i :: 0 <= i < |reqs| && r.outcomes[i].Ok? ==>
      && r.outcomes[i].value.dId.Some?
      && Counters.Seq(st.counters, DealsCounter) < r.outcomes[i].value.dId.value
      && r.outcomes[i].value.dId.value <= Counters.Seq(r.store.counters, DealsCounter)
    ensures forall i, j :: 0 <= i < j < |reqs| && r.outcomes[i].Ok? && r.outcomes[j].Ok? ==>
      r.outcomes[i].value.dId.value < r.outcomes[j].value.dId.value
    decreases |reqs|
  {
    if |reqs| == 0 then Created(st, [])
    else
      var q := reqs[0];
      var s1 := CreateDeal(st, q.id, q.name, q.seller, q.buyer, q.now, q.counterDb, q.writeDb);
      var rest := CreateAll(s1.store, reqs[1..]);
      Created(rest.store, [s1.outcome] + rest.outcomes)
  }

  /** Requests that all pass validation, meet a working database and use fresh
      distinct ids get `dId`s counting up by one from the counter's value:
      from a fresh counter, exactly 1, 2, ..., n. */
  lemma {:induction false} CreateAllCountsUp(st: Store, reqs: seq<CreateRequest>)
    requires forall i :: 0 <= i < |reqs| ==>
      NameValid(reqs[i].name) && reqs[i].counterDb == DbOk && reqs[i].writeDb == DbOk && reqs[i].id !in st.deals
    requires forall i, j :: 0 <= i < j < |reqs| ==> reqs[i].id != reqs[j].id
    ensures forall i :: 0 <= i < |reqs| ==>
      CreateAll(st, reqs).outcomes[i] == Ok(
        NewDeal(reqs[i].id, reqs[i].name, reqs[i].seller, reqs[i].buyer, reqs[i].now)
          .(dId := Some(Counters.Seq(st.counters, DealsCounter) + i + 1)))
    decreases |reqs|
  {
    if |reqs| > 0 {
      var q := reqs[0];
      var s1 := CreateDeal(st, q.id, q.name, q.seller, q.buyer, q.now, q.counterDb, q.writeDb);
      CreateAllCountsUp(s1.store, reqs[1..]);
    }
  }
}
