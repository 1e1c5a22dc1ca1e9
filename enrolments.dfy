/**
 * The automation enrolment reconciler (`Automation::sync`) as functions: the
 * pending automation types, the pass that resolves each enrolment's contact,
 * the enrolment call and status write that conclude a type, and the run over
 * all types. Every collaborator call is a `Call` value, in order.
 */
module Enrolments {
  import opened Collections
  import opened Php

  const AutomationTypeNewCustomer: string := "customer_automation"
  const AutomationTypeNewSubscriber: string := "subscriber_automation"
  const AutomationTypeNewOrder: string := "order_automation"
  const AutomationTypeNewGuestOrder: string := "guest_order_automation"
  const AutomationTypeNewReview: string := "review_automation"
  const AutomationTypeNewWishlist: string := "wishlist_automation"
  const StatusPending: string := "pending"
  const StatusSuppressed: string := "Suppressed"

  /** The enrolments fetched per type: the initial value of the `limit` field. */
  const DefaultLimit: int := 100

  /** The initial value of the `programStatus` field. */
  const StatusActive: string := "Active"

  /** The enrolment-call message that marks the program as no longer active. */
  const ProgramNotActive: string := "Error: ERROR_PROGRAM_NOT_ACTIVE "

  /** A row of the automation enrolment table. */
  datatype Enrolment = Enrolment(
    id: int,
    automationType: string,
    email: string,
    typeId: int,
    websiteId: int,
    programId: string,
    storeName: string,
    enrolmentStatus: string)

  /** The order loaded by the enrolment's type id, as far as the datafields read it. */
  datatype Order = Order(id: string, incrementId: string, createdAt: string, customerId: string, customerEmail: string)

  /** The website configuration keys naming the order datafields. */
  datatype ConfigPath =
    | LastOrderIdPath
    | LastOrderIncrementIdPath
    | StoreNamePath
    | WebsiteNamePath
    | LastOrderDatePath
    | CustomerIdPath

  /** One `{Key, Value}` pair of a contact datafield update. */
  datatype Datafield = Datafield(key: string, value: string)

  /** The enrolment payload: contact ids, program id and address books. */
  datatype EnrolmentRequest = EnrolmentRequest(contacts: seq<int>, programId: string, addressBooks: seq<int>)

  /** The collaborators `sync` calls, as functions of their arguments. */
  datatype AutomationEnv = AutomationEnv(
    contactId: (string, int) -> int,                  // helper->getContactId(email, websiteId); 0 when falsy
    programLookup: (int, string) -> Option<string>,   // getProgramById(programId)->status, if set
    enrol: (int, EnrolmentRequest) -> Option<string>, // postProgramsEnrolments(data)->message, if set
    config: (int, ConfigPath) -> string,              // website->getConfig(path)
    websiteName: int -> string,                       // website->getName()
    order: int -> Order,                              // orderFactory->create()->load(typeId)
    writeFails: seq<int> -> Option<string>)           // the batch status update, when it throws

  /** A call `sync` makes to one of its collaborators. */
  datatype Call =
    | MarkSuppressed(enrolment: Enrolment)                                 // the enrolment's save
    | UpdateDataFields(email: string, websiteId: int, storeName: string) // helper->updateDataFields
    | UpdateContactDatafieldsByEmail(websiteId: int, customerEmail: string, data: seq<Datafield>)
    | GetProgram(websiteId: int, programId: string)
    | PostEnrolment(websiteId: int, request: EnrolmentRequest)
    | WriteStatus(ids: seq<int>, status: string, message: Option<string>, updatedAt: string)

  /** The instance fields `sync` overwrites as it goes. */
  datatype Fields = Fields(
    typeId: int,
    websiteId: int,
    programId: string,
    storeName: string,
    programStatus: string,
    programMessage: Option<string>)

  /** Whether an enrolment row is pending. */
  predicate Pending(r: Enrolment)
  {
    r.enrolmentStatus == StatusPending
  }

  /**
   * The automation types of the pending rows, each once, in the order they
   * first occur (the grouped type query).
   */
  function PendingTypes(rows: seq<Enrolment>): (types: seq<string>)
    ensures forall t <- types :: exists r <- rows :: Pending(r) && r.automationType == t
    ensures forall r <- rows :: Pending(r) ==> r.automationType in types
    ensures forall i, j :: 0 <= i < j < |types| ==> types[i] != types[j]
    decreases |rows|
  {
    if rows == [] then []
    else
      var init, last := rows[..|rows| - 1], rows[|rows| - 1];
      var before := PendingTypes(init);
      assert forall r <- init :: r in rows;
      if Pending(last) && last.automationType !in before then before + [last.automationType] else before
  }

  /**
   * The enrolments fetched for one type: pending rows of that type, in
   * store order, at most `limit` of them.
   */
  function Batch(rows: seq<Enrolment>, automationType: string, limit: int): (batch: seq<Enrolment>)
    ensures |batch| <= if limit < 0 then 0 else limit
    ensures forall r <- batch :: r in rows && Pending(r) && r.automationType == automationType
    ensures |batch| < limit ==> forall r <- rows :: Pending(r) && r.automationType == automationType ==> r in batch
  {
    FilterMembers(rows, (r: Enrolment) => Pending(r) && r.automationType == automationType);
    Take(Filter(rows, (r: Enrolment) => Pending(r) && r.automationType == automationType), limit)
  }

  // ---------------------------------------------------------------------------
  // Datafields

  /** Which datafields routine `updateDatafieldsByType` runs for a type. */
  datatype Routine = DefaultDatafields | NewOrderDatafields

  /** The automation types whose datafields are those of an order. */
  const NewOrderTypes: seq<string> := [AutomationTypeNewOrder, AutomationTypeNewGuestOrder, AutomationTypeNewReview]

  /**
   * `updateDatafieldsByType`'s switch: order, guest-order and review types
   * update the order datafields; every other type, and no type at all,
   * updates the default ones.
   */
  function DatafieldsRoutine(automationType: Option<string>): (r: Routine)
    ensures r == NewOrderDatafields <==> automationType.Some? && automationType.value in NewOrderTypes
  {
    match automationType
    case None => DefaultDatafields
    case Some(t) =>
      if t == AutomationTypeNewOrder || t == AutomationTypeNewGuestOrder || t == AutomationTypeNewReview
      then NewOrderDatafields
      else DefaultDatafields
  }

  /** The customer, subscriber and wishlist types, and a missing type, all take the default routine. */
  lemma DefaultRoutineTypes()
    ensures DatafieldsRoutine(None) == DefaultDatafields
    ensures forall t <- [AutomationTypeNewCustomer, AutomationTypeNewSubscriber, AutomationTypeNewWishlist] ::
      DatafieldsRoutine(Some(t)) == DefaultDatafields
  {
    assert AutomationTypeNewCustomer !in NewOrderTypes;
    assert AutomationTypeNewSubscriber !in NewOrderTypes;
    assert AutomationTypeNewWishlist !in NewOrderTypes;
  }

  /** A candidate order datafield: the configuration key naming it and its value. */
  type Candidate = (ConfigPath, string)

  /**
   * The six candidate order datafields in the order they are tried: last
   * order id, increment id, store name, website name, last order date,
   * customer id.
   */
  function Candidates(f: Fields, env: AutomationEnv): (cs: seq<Candidate>)
    ensures |cs| == 6
  {
    var order := env.order(f.typeId);
    [ (LastOrderIdPath, order.id),
      (LastOrderIncrementIdPath, order.incrementId),
      (StoreNamePath, f.storeName),
      (WebsiteNamePath, env.websiteName(f.websiteId)),
      (LastOrderDatePath, order.createdAt),
      (CustomerIdPath, order.customerId) ]
  }

  /**
   * A candidate is sent when its key is configured for the website; the
   * customer id also needs the order to have a customer.
   */
  predicate Configured(env: AutomationEnv, websiteId: int, c: Candidate)
  {
    Truthy(env.config(websiteId, c.0)) && (c.0 == CustomerIdPath ==> Truthy(c.1))
  }

  /** The datafield a candidate contributes: its configured name and value, if configured. */
  function Pick(env: AutomationEnv, websiteId: int, c: Candidate): (d: seq<Datafield>)
    ensures |d| <= 1
  {
    if Configured(env, websiteId, c) then [Datafield(env.config(websiteId, c.0), c.1)] else []
  }

  /** The datafields of the configured candidates, in candidate order. */
  function Select(env: AutomationEnv, websiteId: int, cs: seq<Candidate>): seq<Datafield>
    decreases |cs|
  {
    if cs == [] then [] else Pick(env, websiteId, cs[0]) + Select(env, websiteId, cs[1..])
  }

  /**
   * Selection keeps exactly the configured candidates: each datafield comes
   * from a configured candidate, and each configured candidate gives one.
   */
  lemma {:induction false} SelectExactly(env: AutomationEnv, websiteId: int, cs: seq<Candidate>)
    ensures |Select(env, websiteId, cs)| <= |cs|
    ensures forall d <- Select(env, websiteId, cs) ::
      exists c <- cs :: Configured(env, websiteId, c) && d == Datafield(env.config(websiteId, c.0), c.1)
    ensures forall c <- cs :: Configured(env, websiteId, c) ==> Datafield(env.config(websiteId, c.0), c.1) in Select(env, websiteId, cs)
    decreases |cs|
  {
    if cs != [] {
      SelectExactly(env, websiteId, cs[1..]);
      assert forall c <- cs[1..] :: c in cs;
      assert forall c <- cs :: c == cs[0] || c in cs[1..];
    }
  }

  /** The order datafields `_updateNewOrderDatafields` sends: the configured candidates, in table order. */
  function ConfiguredDatafields(f: Fields, env: AutomationEnv): seq<Datafield>
  {
    Select(env, f.websiteId, Candidates(f, env))
  }

  /** Six candidates select the concatenation of their picks. */
  lemma SelectSix(env: AutomationEnv, websiteId: int, cs: seq<Candidate>)
    requires |cs| == 6
    ensures Select(env, websiteId, cs)
         == Pick(env, websiteId, cs[0]) + Pick(env, websiteId, cs[1]) + Pick(env, websiteId, cs[2])
          + Pick(env, websiteId, cs[3]) + Pick(env, websiteId, cs[4]) + Pick(env, websiteId, cs[5])
  {
    var w := websiteId;
    assert cs[1..][1..][1..][1..][1..][1..] == [];
    assert Select(env, w, cs[5..]) == Pick(env, w, cs[5]);
    assert cs[4..][1..] == cs[5..];
    assert Select(env, w, cs[4..]) == Pick(env, w, cs[4]) + Select(env, w, cs[5..]);
    assert cs[3..][1..] == cs[4..];
    assert Select(env, w, cs[3..]) == Pick(env, w, cs[3]) + Select(env, w, cs[4..]);
    assert cs[2..][1..] == cs[3..];
    assert Select(env, w, cs[2..]) == Pick(env, w, cs[2]) + Select(env, w, cs[3..]);
    assert cs[1..][1..] == cs[2..];
    assert Select(env, w, cs[1..]) == Pick(env, w, cs[1]) + Select(env, w, cs[2..]);
  }

  /**
   * `_updateNewOrderDatafields`'s list construction: one pair per configured
   * key, appended in table order, the customer pair only for an order with a
   * customer.
   */
  method BuildNewOrderDatafields(f: Fields, env: AutomationEnv) returns (data: seq<Datafield>)
    ensures data == ConfiguredDatafields(f, env)
    ensures |data| <= 6
  {
    var website := f.websiteId;
    var orderModel := env.order(f.typeId);
    ghost var cs := Candidates(f, env);
    data := [];
    var lastOrderId := env.config(website, LastOrderIdPath);
    data := data + if Truthy(lastOrderId) then [Datafield(lastOrderId, orderModel.id)] else [];
    assert data == Pick(env, website, cs[0]);
    var orderIncrementId := env.config(website, LastOrderIncrementIdPath);
    data := data + if Truthy(orderIncrementId) then [Datafield(orderIncrementId, orderModel.incrementId)] else [];
    assert data == Pick(env, website, cs[0]) + Pick(env, website, cs[1]);
    var storeName := env.config(website, StoreNamePath);
    data := data + if Truthy(storeName) then [Datafield(storeName, f.storeName)] else [];
    assert data == Pick(env, website, cs[0]) + Pick(env, website, cs[1]) + Pick(env, website, cs[2]);
    var websiteName := env.config(website, WebsiteNamePath);
    data := data + if Truthy(websiteName) then [Datafield(websiteName, env.websiteName(website))] else [];
    assert data == Pick(env, website, cs[0]) + Pick(env, website, cs[1]) + Pick(env, website, cs[2])
                 + Pick(env, website, cs[3]);
    var lastOrderDate := env.config(website, LastOrderDatePath);
    data := data + if Truthy(lastOrderDate) then [Datafield(lastOrderDate, orderModel.createdAt)] else [];
    assert data == Pick(env, website, cs[0]) + Pick(env, website, cs[1]) + Pick(env, website, cs[2])
                 + Pick(env, website, cs[3]) + Pick(env, website, cs[4]);
    var customerId := env.config(website, CustomerIdPath);
    data := data + if Truthy(customerId) && Truthy(orderModel.customerId) then [Datafield(customerId, orderModel.customerId)] else [];
    SelectSix(env, website, cs);
  }

  /**
   * The customer-id datafield is sent only when the key is configured and
   * the order has a customer, as the last pair.
   */
  lemma CustomerDatafieldNeedsCustomer(f: Fields, env: AutomationEnv)
    ensures var data := ConfiguredDatafields(f, env);
      var order := env.order(f.typeId);
      && ((Truthy(env.config(f.websiteId, CustomerIdPath)) && Truthy(order.customerId))
            ==> data != [] && data[|data| - 1] == Datafield(env.config(f.websiteId, CustomerIdPath), order.customerId))
      && (data == [] <==> forall c <- Candidates(f, env) :: !Configured(env, f.websiteId, c))
  {
    var cs := Candidates(f, env);
    SelectSix(env, f.websiteId, cs);
  }

  /** The calls `updateDatafieldsByType` makes for an enrolment, with the fields set from its row. */
  function DatafieldCalls(automationType: Option<string>, email: string, f: Fields, env: AutomationEnv): (calls: seq<Call>)
    ensures |calls| <= 1
    ensures forall c <- calls :: c.UpdateDataFields? || c.UpdateContactDatafieldsByEmail?
    ensures DatafieldsRoutine(automationType) == DefaultDatafields ==>
      calls == [UpdateDataFields(email, f.websiteId, f.storeName)]
  {
    match DatafieldsRoutine(automationType)
    case DefaultDatafields => [UpdateDataFields(email, f.websiteId, f.storeName)]
    case NewOrderDatafields =>
      var data := ConfiguredDatafields(f, env);
      if data != [] then [UpdateContactDatafieldsByEmail(f.websiteId, env.order(f.typeId).customerEmail, data)] else []
  }

  // ---------------------------------------------------------------------------
  // Resolving the contacts of one type

  /** Whether the enrolment's email resolves to a contact id on its website. */
  predicate Resolved(env: AutomationEnv, r: Enrolment)
  {
    env.contactId(r.email, r.websiteId) != 0
  }

  /** The fields after `sync` has read an enrolment row. */
  function WithRow(f: Fields, r: Enrolment): Fields
  {
    f.(typeId := r.typeId, websiteId := r.websiteId, programId := r.programId, storeName := r.storeName)
  }

  /** The state of the inner loop: the fields, the `$contacts` map and the calls made. */
  datatype Pass = Pass(fields: Fields, contacts: IntArray, calls: seq<Call>)

  /**
   * One enrolment of the inner loop: a resolved contact updates its
   * datafields and enters the map under the enrolment id; an unresolved one
   * is saved as Suppressed.
   */
  function ResolveRow(p: Pass, r: Enrolment, automationType: Option<string>, env: AutomationEnv): Pass
  {
    var f := WithRow(p.fields, r);
    var contactId := env.contactId(r.email, f.websiteId);
    if contactId != 0 then
      Pass(f, Put(p.contacts, r.id, contactId), p.calls + DatafieldCalls(automationType, r.email, f, env))
    else
      Pass(f, p.contacts, p.calls + [MarkSuppressed(r.(enrolmentStatus := StatusSuppressed))])
  }

  /** The inner loop over a batch, from the fields `f` and an empty map. */
  function ResolvePass(batch: seq<Enrolment>, f: Fields, automationType: Option<string>, env: AutomationEnv): Pass
    decreases |batch|
  {
    if batch == [] then Pass(f, [], [])
    else ResolveRow(ResolvePass(batch[..|batch| - 1], f, automationType, env), batch[|batch| - 1], automationType, env)
  }

  /** The ids of a sequence of enrolments, in order. */
  function EnrolmentIds(rows: seq<Enrolment>): (ids: seq<int>)
    ensures |ids| == |rows|
    ensures forall k :: 0 <= k < |rows| ==> ids[k] == rows[k].id
    decreases |rows|
  {
    if rows == [] then [] else EnrolmentIds(rows[..|rows| - 1]) + [rows[|rows| - 1].id]
  }

  /** The contact ids of a sequence of enrolments, in order. */
  function ContactIds(rows: seq<Enrolment>, env: AutomationEnv): (ids: seq<int>)
    ensures |ids| == |rows|
    ensures forall k :: 0 <= k < |rows| ==> ids[k] == env.contactId(rows[k].email, rows[k].websiteId)
    decreases |rows|
  {
    if rows == [] then [] else ContactIds(rows[..|rows| - 1], env) + [env.contactId(rows[|rows| - 1].email, rows[|rows| - 1].websiteId)]
  }

  /** The enrolments saved as Suppressed by a sequence of calls, in order. */
  function SuppressedRows(calls: seq<Call>): seq<Enrolment>
    decreases |calls|
  {
    if calls == [] then []
    else
      var last := calls[|calls| - 1];
      SuppressedRows(calls[..|calls| - 1]) + (if last.MarkSuppressed? then [last.enrolment] else [])
  }

  lemma {:induction false} SuppressedRowsAppend(a: seq<Call>, b: seq<Call>)
    ensures SuppressedRows(a + b) == SuppressedRows(a) + SuppressedRows(b)
    decreases |b|
  {
    if b == [] {
      assert a + b == a;
    } else {
      SuppressedRowsAppend(a, b[..|b| - 1]);
      assert (a + b)[..|a + b| - 1] == a + b[..|b| - 1];
    }
  }

  lemma {:induction false} NoSuppressed(calls: seq<Call>)
    requires forall c <- calls :: !c.MarkSuppressed?
    ensures SuppressedRows(calls) == []
    decreases |calls|
  {
    if calls != [] {
      NoSuppressed(calls[..|calls| - 1]);
    }
  }

  /** The enrolments of `rows` whose contact resolves, in order. */
  function ResolvedRows(rows: seq<Enrolment>, env: AutomationEnv): seq<Enrolment>
  {
    Filter(rows, (r: Enrolment) => Resolved(env, r))
  }

  /** The enrolments of `rows` whose contact does not resolve, in order. */
  function UnresolvedRows(rows: seq<Enrolment>, env: AutomationEnv): seq<Enrolment>
  {
    Filter(rows, (r: Enrolment) => !Resolved(env, r))
  }

  /** The enrolments of a batch with `MarkSuppressed`'s status. */
  function MarkedSuppressed(rows: seq<Enrolment>): seq<Enrolment>
  {
    seq(|rows|, k requires 0 <= k < |rows| => rows[k].(enrolmentStatus := StatusSuppressed))
  }

  /**
   * The map holds exactly the resolved enrolments, keyed by id with their
   * contact ids as values, in batch order.
   */
  lemma {:induction false} ResolvePassContacts(batch: seq<Enrolment>, f: Fields, automationType: Option<string>, env: AutomationEnv)
    requires DistinctBy(batch, (r: Enrolment) => r.id)
    ensures var p := ResolvePass(batch, f, automationType, env);
      Keys(p.contacts) == EnrolmentIds(ResolvedRows(batch, env)) && Values(p.contacts) == ContactIds(ResolvedRows(batch, env), env)
    decreases |batch|
  {
    if batch != [] {
      var init, last := batch[..|batch| - 1], batch[|batch| - 1];
      DistinctPrefix(batch);
      ResolvePassContacts(init, f, automationType, env);
      var before := ResolvePass(init, f, automationType, env);
      FilterLast(batch, (r: Enrolment) => Resolved(env, r));
      if Resolved(env, last) {
        LastIdIsNew(batch, env);
        AppendResolved(ResolvedRows(init, env), last, before.contacts, env);
      }
    }
  }

  /** Appending a resolved enrolment to the map appends its id and its contact id. */
  lemma AppendResolved(prev: seq<Enrolment>, last: Enrolment, contacts: IntArray, env: AutomationEnv)
    requires Keys(contacts) == EnrolmentIds(prev) && Values(contacts) == ContactIds(prev, env)
    ensures var single: IntArray := [(last.id, env.contactId(last.email, last.websiteId))];
      Keys(contacts + single) == EnrolmentIds(prev + [last]) && Values(contacts + single) == ContactIds(prev + [last], env)
  {
    var single: IntArray := [(last.id, env.contactId(last.email, last.websiteId))];
    KeysAppend(contacts, single);
    assert single[1..] == [];
    assert (prev + [last])[..|prev|] == prev;
  }

  lemma DistinctPrefix(batch: seq<Enrolment>)
    requires batch != [] && DistinctBy(batch, (r: Enrolment) => r.id)
    ensures DistinctBy(batch[..|batch| - 1], (r: Enrolment) => r.id)
  {
    var init := batch[..|batch| - 1];
    forall i, j | 0 <= i < j < |init| ensures init[i].id != init[j].id {
      assert init[i] == batch[i] && init[j] == batch[j];
    }
  }

  /** With distinct ids, the last enrolment's id is not among the resolved ids before it. */
  lemma LastIdIsNew(batch: seq<Enrolment>, env: AutomationEnv)
    requires batch != [] && DistinctBy(batch, (r: Enrolment) => r.id)
    ensures batch[|batch| - 1].id !in EnrolmentIds(ResolvedRows(batch[..|batch| - 1], env))
  {
    var init, last := batch[..|batch| - 1], batch[|batch| - 1];
    var resolved := ResolvedRows(init, env);
    FilterMembers(init, (r: Enrolment) => Resolved(env, r));
    forall k | 0 <= k < |resolved| ensures EnrolmentIds(resolved)[k] != last.id {
      assert resolved[k] in init;
    }
  }

  /** Exactly the unresolved enrolments are saved as Suppressed, in batch order. */
  lemma {:induction false} ResolvePassSuppresses(batch: seq<Enrolment>, f: Fields, automationType: Option<string>, env: AutomationEnv)
    ensures SuppressedRows(ResolvePass(batch, f, automationType, env).calls)
         == MarkedSuppressed(UnresolvedRows(batch, env))
    decreases |batch|
  {
    if batch != [] {
      ResolvePassSuppresses(batch[..|batch| - 1], f, automationType, env);
      SuppressedStep(batch, f, automationType, env);
      MarkedUnresolvedStep(batch, env);
    }
  }

  /** One more row of the pass saves it as Suppressed exactly when it is unresolved. */
  lemma SuppressedStep(batch: seq<Enrolment>, f: Fields, automationType: Option<string>, env: AutomationEnv)
    requires batch != []
    ensures var last := batch[|batch| - 1];
      SuppressedRows(ResolvePass(batch, f, automationType, env).calls)
      == SuppressedRows(ResolvePass(batch[..|batch| - 1], f, automationType, env).calls)
         + (if Resolved(env, last) then [] else [last.(enrolmentStatus := StatusSuppressed)])
  {
    var init, last := batch[..|batch| - 1], batch[|batch| - 1];
    var before := ResolvePass(init, f, automationType, env);
    if Resolved(env, last) {
      var calls := DatafieldCalls(automationType, last.email, WithRow(before.fields, last), env);
      SuppressedRowsAppend(before.calls, calls);
      NoSuppressed(calls);
    } else {
      var mark := MarkSuppressed(last.(enrolmentStatus := StatusSuppressed));
      SuppressedRowsAppend(before.calls, [mark]);
      assert [mark][..0] == [];
    }
  }

  /** The marked unresolved rows of a batch extend those of its prefix by its last row, when unresolved. */
  lemma MarkedUnresolvedStep(batch: seq<Enrolment>, env: AutomationEnv)
    requires batch != []
    ensures var last := batch[|batch| - 1];
      MarkedSuppressed(UnresolvedRows(batch, env))
      == MarkedSuppressed(UnresolvedRows(batch[..|batch| - 1], env))
         + (if Resolved(env, last) then [] else [last.(enrolmentStatus := StatusSuppressed)])
  {
    var init, last := batch[..|batch| - 1], batch[|batch| - 1];
    FilterLast(batch, (r: Enrolment) => !Resolved(env, r));
    if !Resolved(env, last) {
      MarkedSuppressedAppend(UnresolvedRows(init, env), last);
    }
  }

  lemma MarkedSuppressedAppend(rows: seq<Enrolment>, r: Enrolment)
    ensures MarkedSuppressed(rows + [r]) == MarkedSuppressed(rows) + [r.(enrolmentStatus := StatusSuppressed)]
  {
    assert (rows + [r])[..|rows|] == rows;
  }

  /** Without distinct ids the map still holds exactly the ids of the resolved enrolments. */
  lemma {:induction false} ResolvePassKeys(batch: seq<Enrolment>, f: Fields, automationType: Option<string>, env: AutomationEnv)
    ensures var p := ResolvePass(batch, f, automationType, env);
      && |p.contacts| <= |batch|
      && forall k :: k in Keys(p.contacts) <==> exists r <- batch :: r.id == k && Resolved(env, r)
    decreases |batch|
  {
    if batch != [] {
      var init, last := batch[..|batch| - 1], batch[|batch| - 1];
      ResolvePassKeys(init, f, automationType, env);
      var before := ResolvePass(init, f, automationType, env);
      assert ResolvePass(batch, f, automationType, env) == ResolveRow(before, last, automationType, env);
      ResolveRowKeys(before, last, automationType, env);
      var after := ResolvePass(batch, f, automationType, env);
      forall k
        ensures k in Keys(after.contacts) <==> exists r <- batch :: r.id == k && Resolved(env, r)
      {
        ResolvedIdsStep(batch, k, env);
      }
    }
  }

  /** One row adds its id to the map's keys exactly when its contact resolves, and at most one pair. */
  lemma ResolveRowKeys(p: Pass, r: Enrolment, automationType: Option<string>, env: AutomationEnv)
    ensures var q := ResolveRow(p, r, automationType, env);
      && |q.contacts| <= |p.contacts| + 1
      && forall k :: k in Keys(q.contacts) <==> k in Keys(p.contacts) || (Resolved(env, r) && k == r.id)
  {
  }

  /** A resolved id of a batch is one of its prefix, or the id of its resolved last row. */
  lemma ResolvedIdsStep(batch: seq<Enrolment>, k: int, env: AutomationEnv)
    requires batch != []
    ensures var init, last := batch[..|batch| - 1], batch[|batch| - 1];
      (exists r <- batch :: r.id == k && Resolved(env, r))
      <==> (exists r <- init :: r.id == k && Resolved(env, r)) || (Resolved(env, last) && k == last.id)
  {
    var init, last := batch[..|batch| - 1], batch[|batch| - 1];
    assert batch == init + [last];
    assert forall r <- batch :: r in init || r == last;
  }

  /**
   * The inner loop leaves the program status and message as they were and
   * the row fields of the last enrolment; it only saves Suppressed rows of
   * the batch and updates datafields, one call per enrolment when the
   * routine is the default one.
   */
  lemma {:induction false} ResolvePassFields(batch: seq<Enrolment>, f: Fields, automationType: Option<string>, env: AutomationEnv)
    ensures var p := ResolvePass(batch, f, automationType, env);
      && p.fields.programStatus == f.programStatus && p.fields.programMessage == f.programMessage
      && (batch != [] ==> p.fields == WithRow(f, batch[|batch| - 1]))
      && (forall c <- p.calls :: c.UpdateDataFields? || c.UpdateContactDatafieldsByEmail?
            || (c.MarkSuppressed? && exists r <- batch :: !Resolved(env, r) && c.enrolment == r.(enrolmentStatus := StatusSuppressed)))
      && (DatafieldsRoutine(automationType) == DefaultDatafields ==>
            |p.calls| == |batch| && forall c <- p.calls :: c.MarkSuppressed? || c.UpdateDataFields?)
    decreases |batch|
  {
    if batch != [] {
      var init, last := batch[..|batch| - 1], batch[|batch| - 1];
      ResolvePassFields(init, f, automationType, env);
      assert forall r <- init :: r in batch;
      var before := ResolvePass(init, f, automationType, env);
      if init != [] {
        assert before.fields == WithRow(f, init[|init| - 1]);
      }
    }
  }

  // ---------------------------------------------------------------------------
  // Concluding one type

  /** Whether `sync` looks the program up: contacts were resolved, the type is set and the program id is truthy. */
  predicate LooksUp(automationType: string, p: Pass)
  {
    p.contacts != [] && automationType != "" && Truthy(p.fields.programId)
  }

  /** Whether `sync` enrols the contacts: it looked the program up and found it Active. */
  predicate Enrols(automationType: string, p: Pass, env: AutomationEnv)
  {
    LooksUp(automationType, p) && env.programLookup(p.fields.websiteId, p.fields.programId) == Some(StatusActive)
  }

  /** `sendContactsToAutomation`'s payload: the map's contact ids, the program id, no address books. */
  function Request(p: Pass): EnrolmentRequest
  {
    EnrolmentRequest(Values(p.contacts), p.fields.programId, [])
  }

  /** The fields after `_checkCampignEnrolmentActive`: a returned status replaces `programStatus`. */
  function AfterLookup(f: Fields, env: AutomationEnv): Fields
  {
    match env.programLookup(f.websiteId, f.programId)
    case Some(status) => f.(programStatus := status)
    case None => f
  }

  /** The fields, calls and thrown error with which a type ends. */
  datatype Outcome = Outcome(fields: Fields, calls: seq<Call>, error: Option<string>)

  /**
   * The end of one type: the program lookup and the enrolment when they
   * apply, the Failed or Deactivated outcome, and the batch status write to
   * the map's enrolment ids.
   */
  function Conclude(automationType: string, p: Pass, env: AutomationEnv, now: string): Outcome
  {
    var f := p.fields;
    var looksUp := LooksUp(automationType, p);
    var lookup := if looksUp then [GetProgram(f.websiteId, f.programId)] else [];
    var checked := if looksUp then AfterLookup(f, env) else f;
    var enrols := Enrols(automationType, p, env);
    var enrolment := if enrols then [PostEnrolment(f.websiteId, Request(p))] else [];
    var result := if enrols then env.enrol(f.websiteId, Request(p)) else None;
    var g :=
      if enrols then (if result.Some? then checked.(programStatus := "Failed", programMessage := result) else checked)
      else if checked.programMessage == Some(ProgramNotActive) then checked.(programStatus := "Deactivated")
      else checked;
    var ids := Keys(p.contacts);
    Outcome(g, lookup + enrolment + [WriteStatus(ids, g.programStatus, g.programMessage, now)], env.writeFails(ids))
  }

  /**
   * A type looks the program up only with resolved contacts, a type and a
   * program id; it enrols at most once, only an Active program, with exactly
   * the map's contact ids; and it ends with one status write to exactly the
   * map's enrolment ids, whose failure is the type's error.
   */
  lemma ConcludeCalls(automationType: string, p: Pass, env: AutomationEnv, now: string)
    ensures var o := Conclude(automationType, p, env, now);
      && |o.calls| <= 3
      && ((exists c <- o.calls :: c.GetProgram?) <==> LooksUp(automationType, p))
      && ((exists c <- o.calls :: c.PostEnrolment?) <==> Enrols(automationType, p, env))
      && (forall i, j :: 0 <= i < j < |o.calls| ==> !(o.calls[i].PostEnrolment? && o.calls[j].PostEnrolment?))
      && (forall c <- o.calls :: c.PostEnrolment? ==> c == PostEnrolment(p.fields.websiteId, EnrolmentRequest(Values(p.contacts), p.fields.programId, [])))
      && o.calls[|o.calls| - 1] == WriteStatus(Keys(p.contacts), o.fields.programStatus, o.fields.programMessage, now)
      && (forall k :: 0 <= k < |o.calls| - 1 ==> !o.calls[k].WriteStatus?)
      && o.error == env.writeFails(Keys(p.contacts))
  {
    var o := Conclude(automationType, p, env, now);
    if Enrols(automationType, p, env) {
      assert o.calls[1].PostEnrolment?;
    }
    if LooksUp(automationType, p) {
      assert o.calls[0].GetProgram?;
    }
  }

  /**
   * An enrolment answered with a message fails the type with that message;
   * without an enrolment, the not-active message deactivates it; otherwise
   * the status is the looked-up one or the carried-over one. The message
   * changes only by an enrolment's answer, and the row fields not at all.
   */
  lemma ConcludeStatus(automationType: string, p: Pass, env: AutomationEnv, now: string)
    ensures var o := Conclude(automationType, p, env, now);
      var f := p.fields;
      var answer := env.enrol(f.websiteId, Request(p));
      && (Enrols(automationType, p, env) && answer.Some? ==>
            o.fields.programStatus == "Failed" && o.fields.programMessage == answer)
      && (Enrols(automationType, p, env) && answer.None? ==> o.fields.programStatus == StatusActive)
      && (!Enrols(automationType, p, env) && f.programMessage == Some(ProgramNotActive) ==>
            o.fields.programStatus == "Deactivated")
      && (!Enrols(automationType, p, env) && f.programMessage != Some(ProgramNotActive) ==>
            o.fields.programStatus == (if LooksUp(automationType, p) then AfterLookup(f, env) else f).programStatus)
      && (o.fields.programMessage == f.programMessage || (Enrols(automationType, p, env) && o.fields.programMessage == answer))
      && o.fields.(programStatus := f.programStatus, programMessage := f.programMessage) == f
  {
  }

  // ---------------------------------------------------------------------------
  // The run over all types

  /** The fields, calls and thrown error after some types. */
  datatype Run = Run(fields: Fields, calls: seq<Call>, error: Option<string>)

  /** One type of the outer loop, skipped once an error was thrown. */
  function TypeStep(r: Run, automationType: string, rows: seq<Enrolment>, limit: int, datafieldsType: Option<string>,
                    env: AutomationEnv, now: string): Run
  {
    if r.error.Some? then r
    else
      var p := ResolvePass(Batch(rows, automationType, limit), r.fields, datafieldsType, env);
      var o := Conclude(automationType, p, env, now);
      Run(o.fields, r.calls + p.calls + o.calls, o.error)
  }

  /** The outer loop over `types`, in order, from the fields `start`. */
  function RunTypes(types: seq<string>, rows: seq<Enrolment>, start: Fields, limit: int, datafieldsType: Option<string>,
                    env: AutomationEnv, now: string): Run
    decreases |types|
  {
    if types == [] then Run(start, [], None)
    else TypeStep(RunTypes(types[..|types| - 1], rows, start, limit, datafieldsType, env, now),
                  types[|types| - 1], rows, limit, datafieldsType, env, now)
  }

  /** `sync`: every pending type, in the order the grouped query returns them. */
  function SyncRun(rows: seq<Enrolment>, start: Fields, limit: int, datafieldsType: Option<string>,
                   env: AutomationEnv, now: string): Run
  {
    RunTypes(PendingTypes(rows), rows, start, limit, datafieldsType, env, now)
  }

  /** A thrown status write ends the sync: no later type makes a call or changes a field. */
  lemma {:induction false} ErrorStopsSync(types: seq<string>, k: nat, rows: seq<Enrolment>, start: Fields, limit: int,
                                          datafieldsType: Option<string>, env: AutomationEnv, now: string)
    requires k <= |types|
    requires RunTypes(types[..k], rows, start, limit, datafieldsType, env, now).error.Some?
    ensures RunTypes(types, rows, start, limit, datafieldsType, env, now) == RunTypes(types[..k], rows, start, limit, datafieldsType, env, now)
    decreases |types|
  {
    if |types| > k {
      var init := types[..|types| - 1];
      assert init[..k] == types[..k];
      ErrorStopsSync(init, k, rows, start, limit, datafieldsType, env, now);
    } else {
      assert types[..k] == types;
    }
  }

  /** A call that writes or suppresses only pending enrolments of the store, by their resolution. */
  predicate TouchesOnlyPending(c: Call, rows: seq<Enrolment>, env: AutomationEnv)
  {
    && (c.WriteStatus? ==> forall id <- c.ids :: exists r <- rows :: r.id == id && Pending(r) && Resolved(env, r))
    && (c.MarkSuppressed? ==> exists r <- rows :: Pending(r) && !Resolved(env, r) && c.enrolment == r.(enrolmentStatus := StatusSuppressed))
  }

  /** One type's calls touch only pending enrolments of that type's batch. */
  lemma TypeTouchesOnlyPending(automationType: string, rows: seq<Enrolment>, f: Fields, limit: int,
                               datafieldsType: Option<string>, env: AutomationEnv, now: string)
    ensures var p := ResolvePass(Batch(rows, automationType, limit), f, datafieldsType, env);
      forall c <- p.calls + Conclude(automationType, p, env, now).calls :: TouchesOnlyPending(c, rows, env)
  {
    var p := ResolvePass(Batch(rows, automationType, limit), f, datafieldsType, env);
    PassTouchesOnlyPending(automationType, rows, f, limit, datafieldsType, env);
    ConcludeTouchesOnlyPending(automationType, rows, f, limit, datafieldsType, env, now);
    TouchesAppend(p.calls, Conclude(automationType, p, env, now).calls, rows, env);
  }

  /** The inner loop saves as Suppressed only pending enrolments of the store whose contact did not resolve. */
  lemma PassTouchesOnlyPending(automationType: string, rows: seq<Enrolment>, f: Fields, limit: int,
                               datafieldsType: Option<string>, env: AutomationEnv)
    ensures forall c <- ResolvePass(Batch(rows, automationType, limit), f, datafieldsType, env).calls ::
      TouchesOnlyPending(c, rows, env)
  {
    var batch := Batch(rows, automationType, limit);
    var p := ResolvePass(batch, f, datafieldsType, env);
    ResolvePassFields(batch, f, datafieldsType, env);
    forall c <- p.calls | c.MarkSuppressed?
      ensures exists r <- rows :: Pending(r) && !Resolved(env, r) && c.enrolment == r.(enrolmentStatus := StatusSuppressed)
    {
      var r :| r in batch && !Resolved(env, r) && c.enrolment == r.(enrolmentStatus := StatusSuppressed);
    }
  }

  /** The end of a type writes statuses only to pending enrolments of the store whose contact resolved. */
  lemma ConcludeTouchesOnlyPending(automationType: string, rows: seq<Enrolment>, f: Fields, limit: int,
                                   datafieldsType: Option<string>, env: AutomationEnv, now: string)
    ensures var p := ResolvePass(Batch(rows, automationType, limit), f, datafieldsType, env);
      forall c <- Conclude(automationType, p, env, now).calls :: TouchesOnlyPending(c, rows, env)
  {
    var batch := Batch(rows, automationType, limit);
    var p := ResolvePass(batch, f, datafieldsType, env);
    var o := Conclude(automationType, p, env, now);
    ResolvePassKeys(batch, f, datafieldsType, env);
    forall c <- o.calls
      ensures TouchesOnlyPending(c, rows, env)
    {
      if c.WriteStatus? {
        assert c.ids == Keys(p.contacts);
        forall id <- c.ids ensures exists r <- rows :: r.id == id && Pending(r) && Resolved(env, r) {
          var r :| r in batch && r.id == id && Resolved(env, r);
        }
      }
    }
  }

  /**
   * The sync writes statuses only to pending enrolments of the store whose
   * contact resolved, and saves as Suppressed only pending enrolments whose
   * contact did not.
   */
  lemma {:induction false} SyncTouchesOnlyPending(types: seq<string>, rows: seq<Enrolment>, start: Fields, limit: int,
                                                  datafieldsType: Option<string>, env: AutomationEnv, now: string)
    ensures forall c <- RunTypes(types, rows, start, limit, datafieldsType, env, now).calls :: TouchesOnlyPending(c, rows, env)
    decreases |types|
  {
    if types != [] {
      var init, t := types[..|types| - 1], types[|types| - 1];
      var before := RunTypes(init, rows, start, limit, datafieldsType, env, now);
      var after := RunTypes(types, rows, start, limit, datafieldsType, env, now);
      if before.error.None? {
        var p := ResolvePass(Batch(rows, t, limit), before.fields, datafieldsType, env);
        var extra := p.calls + Conclude(t, p, env, now).calls;
        assert after.calls == before.calls + extra;
        SyncTouchesOnlyPending(init, rows, start, limit, datafieldsType, env, now);
        TypeTouchesOnlyPending(t, rows, before.fields, limit, datafieldsType, env, now);
        TouchesAppend(before.calls, extra, rows, env);
      } else {
        assert after == before;
        SyncTouchesOnlyPending(init, rows, start, limit, datafieldsType, env, now);
      }
    }
  }

  lemma TouchesAppend(a: seq<Call>, b: seq<Call>, rows: seq<Enrolment>, env: AutomationEnv)
    requires forall c <- a :: TouchesOnlyPending(c, rows, env)
    requires forall c <- b :: TouchesOnlyPending(c, rows, env)
    ensures forall c <- a + b :: TouchesOnlyPending(c, rows, env)
  {
    assert forall c <- a + b :: c in a || c in b;
  }

  /**
   * The status and message are never reset between types: the message the
   * sync ends with is the one it started with or the answer of one of its
   * enrolment calls.
   */
  lemma {:induction false} MessageCarriesOver(types: seq<string>, rows: seq<Enrolment>, start: Fields, limit: int,
                                              datafieldsType: Option<string>, env: AutomationEnv, now: string)
    ensures var r := RunTypes(types, rows, start, limit, datafieldsType, env, now);
      r.fields.programMessage == start.programMessage
      || exists c <- r.calls :: c.PostEnrolment? && env.enrol(c.websiteId, c.request) == r.fields.programMessage
    decreases |types|
  {
    if types != [] {
      var init, t := types[..|types| - 1], types[|types| - 1];
      MessageCarriesOver(init, rows, start, limit, datafieldsType, env, now);
      var before := RunTypes(init, rows, start, limit, datafieldsType, env, now);
      if before.error.None? {
        var p := ResolvePass(Batch(rows, t, limit), before.fields, datafieldsType, env);
        var o := Conclude(t, p, env, now);
        ResolvePassFields(Batch(rows, t, limit), before.fields, datafieldsType, env);
        ConcludeStatus(t, p, env, now);
        ConcludeCalls(t, p, env, now);
        var r := RunTypes(types, rows, start, limit, datafieldsType, env, now);
        assert r.calls == before.calls + p.calls + o.calls;
        if o.fields.programMessage != p.fields.programMessage {
          assert o.calls[1] == PostEnrolment(p.fields.websiteId, Request(p));
          assert o.calls[1] in r.calls;
        } else if r.fields.programMessage != start.programMessage {
          var c :| c in before.calls && c.PostEnrolment? && env.enrol(c.websiteId, c.request) == before.fields.programMessage;
          assert c in r.calls;
        }
      }
    }
  }

  /**
   * With the datafields type unset, as `sync` leaves it, every resolved
   * enrolment updates the default datafields and none updates order
   * datafields.
   */
  lemma UnsetTypeUsesDefaultDatafields(batch: seq<Enrolment>, f: Fields, env: AutomationEnv)
    ensures var p := ResolvePass(batch, f, None, env);
      |p.calls| == |batch| && forall c <- p.calls :: c.MarkSuppressed? || c.UpdateDataFields?
  {
    ResolvePassFields(batch, f, None, env);
  }
}
