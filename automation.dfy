/**
 * The automation enrolment sync (`Automation`): a class whose fields the
 * sync overwrites per enrolment and per type, each method specified by the
 * calls it appends to `trace` and the fields it leaves, against the
 * functions of `Enrolments`.
 */
module AutomationModel {
  import opened Collections
  import opened Php
  import opened Enrolments

  class Automation {
    var limit: int
    var typeId: int
    var websiteId: int
    var programId: string
    var storeName: string
    var programStatus: string
    var programMessage: Option<string>
    /** The type `updateDatafieldsByType` is called with; nothing in the sync sets it. */
    var automationType: Option<string>
    /** The collaborator calls made so far, in order. */
    var trace: seq<Call>

    /** The fields the sync overwrites, as one value. */
    function State(): Fields
      reads this
    {
      Fields(typeId, websiteId, programId, storeName, programStatus, programMessage)
    }

    constructor()
      ensures limit == DefaultLimit && programStatus == StatusActive
      ensures programMessage == None && automationType == None && trace == []
    {
      limit := DefaultLimit;
      typeId := 0;
      websiteId := 0;
      programId := "";
      storeName := "";
      programStatus := StatusActive;
      programMessage := None;
      automationType := None;
      trace := [];
    }

    /**
     * `sync`: for each pending type, resolves up to `limit` pending
     * enrolments of the type, enrols the resolved contacts when the program
     * is active, and writes the outcome to exactly the resolved enrolments;
     * a failed write ends the sync with its error.
     */
    method Sync(rows: seq<Enrolment>, env: AutomationEnv, now: string) returns (error: Option<string>)
      modifies this`typeId, this`websiteId, this`programId, this`storeName, this`programStatus, this`programMessage, this`trace
      ensures var r := SyncRun(rows, old(State()), limit, automationType, env, now);
              State() == r.fields && trace == old(trace) + r.calls && error == r.error
    {
      var automationTypes := PendingTypes(rows);
      var i := 0;
      assert automationTypes[..0] == [];
      while i < |automationTypes|
        invariant 0 <= i <= |automationTypes|
        invariant var r := RunTypes(automationTypes[..i], rows, old(State()), limit, automationType, env, now);
                  r.error.None? && State() == r.fields && trace == old(trace) + r.calls
      {
        var pendingType := automationTypes[i];
        ghost var r0 := RunTypes(automationTypes[..i], rows, old(State()), limit, automationType, env, now);
        var collection := Batch(rows, pendingType, limit);
        var contacts;
        contacts, pendingType := ResolveContacts(collection, pendingType, env);
        ghost var p := ResolvePass(collection, r0.fields, automationType, env);
        var failure := ConcludeType(pendingType, contacts, p, env, now);
        ghost var o := Conclude(pendingType, p, env, now);
        RunTypesStep(automationTypes, i, rows, old(State()), limit, automationType, env, now);
        ghost var r1 := RunTypes(automationTypes[..i + 1], rows, old(State()), limit, automationType, env, now);
        assert r1 == Run(o.fields, r0.calls + p.calls + o.calls, o.error);
        SeqAssoc3(old(trace), r0.calls, p.calls, o.calls);
        if failure.Some? {
          ErrorStopsSync(automationTypes, i + 1, rows, old(State()), limit, automationType, env, now);
          return failure;
        }
        i := i + 1;
      }
      assert automationTypes[..i] == automationTypes;
      return None;
    }

    /**
     * The inner loop of `sync` over one type's batch: reads each row into
     * the fields, updates the datafields of a resolved contact and maps its
     * enrolment id to the contact id, and saves an unresolved enrolment as
     * Suppressed. The type is re-read from each row.
     */
    method ResolveContacts(collection: seq<Enrolment>, pendingType: string, env: AutomationEnv)
      returns (contacts: IntArray, lastType: string)
      requires forall r <- collection :: r.automationType == pendingType
      modifies this`typeId, this`websiteId, this`programId, this`storeName, this`trace
      ensures var p := ResolvePass(collection, old(State()), automationType, env);
              State() == p.fields && contacts == p.contacts && trace == old(trace) + p.calls
      ensures lastType == pendingType
    {
      contacts := [];
      lastType := pendingType;
      var j := 0;
      assert collection[..0] == [];
      while j < |collection|
        invariant 0 <= j <= |collection|
        invariant var p := ResolvePass(collection[..j], old(State()), automationType, env);
                  State() == p.fields && contacts == p.contacts && trace == old(trace) + p.calls
        invariant lastType == pendingType
      {
        var automation := collection[j];
        ghost var before := ResolvePass(collection[..j], old(State()), automationType, env);
        ResolvePassStep(collection, j, old(State()), automationType, env);
        lastType := automation.automationType;
        contacts := ResolveEnrolment(automation, contacts, before, old(trace), env);
        j := j + 1;
      }
      assert collection[..j] == collection;
    }

    /**
     * One row of `sync`'s inner loop: reads the row into the fields, then
     * either updates the contact's datafields and maps the enrolment id to
     * the contact id, or saves the enrolment as Suppressed.
     */
    method ResolveEnrolment(automation: Enrolment, contacts: IntArray, ghost before: Pass, ghost base: seq<Call>,
                            env: AutomationEnv)
      returns (updated: IntArray)
      requires before.fields == State() && before.contacts == contacts && trace == base + before.calls
      modifies this`typeId, this`websiteId, this`programId, this`storeName, this`trace
      ensures var q := ResolveRow(before, automation, automationType, env);
              State() == q.fields && updated == q.contacts && trace == base + q.calls
    {
      var email := automation.email;
      typeId := automation.typeId;
      websiteId := automation.websiteId;
      programId := automation.programId;
      storeName := automation.storeName;
      var contactId := env.contactId(email, websiteId);
      if contactId != 0 {
        UpdateDatafieldsByType(automationType, email, env);
        updated := Put(contacts, automation.id, contactId);
      } else {
        updated := contacts;
        trace := trace + [MarkSuppressed(automation.(enrolmentStatus := StatusSuppressed))];
      }
    }

    /**
     * The end of one type in `sync`: enrols the contacts when the program is
     * active, records a failed enrolment or a deactivated program, and writes
     * the outcome to the map's enrolment ids, answering the write's error.
     */
    method ConcludeType(pendingType: string, contacts: IntArray, ghost p: Pass, env: AutomationEnv, now: string)
      returns (failure: Option<string>)
      requires p.fields == State() && p.contacts == contacts
      modifies this`programStatus, this`programMessage, this`trace
      ensures var o := Conclude(pendingType, p, env, now);
              State() == o.fields && trace == old(trace) + o.calls && failure == o.error
    {
      var enrol := false;
      if contacts != [] && pendingType != "" {
        enrol := CheckCampaignEnrolmentActive(programId, env);
      }
      if enrol {
        var result := SendContactsToAutomation(Values(contacts), env);
        if result.Some? {
          programStatus := "Failed";
          programMessage := result;
        }
      } else if programMessage == Some(ProgramNotActive) {
        programStatus := "Deactivated";
      }
      var contactIds := Keys(contacts);
      trace := trace + [WriteStatus(contactIds, programStatus, programMessage, now)];
      failure := env.writeFails(contactIds);
    }

    /** Concatenation regroups: the three steps' calls appended one by one are appended as one. */
    static lemma SeqAssoc3(a: seq<Call>, b: seq<Call>, c: seq<Call>, d: seq<Call>)
      ensures a + b + c + d == a + (b + c + d)
    {
    }

    /** The pass over a one-longer prefix of the batch resolves one more row. */
    static lemma ResolvePassStep(batch: seq<Enrolment>, j: int, f: Fields, datafieldsType: Option<string>, env: AutomationEnv)
      requires 0 <= j < |batch|
      ensures ResolvePass(batch[..j + 1], f, datafieldsType, env)
           == ResolveRow(ResolvePass(batch[..j], f, datafieldsType, env), batch[j], datafieldsType, env)
    {
      assert batch[..j + 1][..j] == batch[..j];
    }

    /** The run over a one-longer prefix of the types takes one more type step. */
    static lemma RunTypesStep(types: seq<string>, i: int, rows: seq<Enrolment>, start: Fields, limit: int,
                              datafieldsType: Option<string>, env: AutomationEnv, now: string)
      requires 0 <= i < |types|
      ensures RunTypes(types[..i + 1], rows, start, limit, datafieldsType, env, now)
           == TypeStep(RunTypes(types[..i], rows, start, limit, datafieldsType, env, now), types[i], rows, limit, datafieldsType, env, now)
    {
      assert types[..i + 1][..i] == types[..i];
    }

    /**
     * `updateDatafieldsByType`: the order, guest-order and review types
     * update the order datafields; the others, and an unset type, the
     * default ones.
     */
    method UpdateDatafieldsByType(datafieldsType: Option<string>, email: string, env: AutomationEnv)
      modifies this`trace
      ensures trace == old(trace) + DatafieldCalls(datafieldsType, email, State(), env)
    {
      match datafieldsType
      case None =>
        UpdateDefaultDatafields(email, env);
      case Some(t) =>
        if t == AutomationTypeNewCustomer || t == AutomationTypeNewSubscriber {
          UpdateDefaultDatafields(email, env);
        } else if t == AutomationTypeNewOrder || t == AutomationTypeNewGuestOrder || t == AutomationTypeNewReview {
          UpdateNewOrderDatafields(env);
        } else {
          UpdateDefaultDatafields(email, env);
        }
    }

    /** `_updateDefaultDatafields`: the helper's datafield update for the contact on this website and store. */
    method UpdateDefaultDatafields(email: string, env: AutomationEnv)
      modifies this`trace
      ensures trace == old(trace) + [UpdateDataFields(email, websiteId, storeName)]
    {
      trace := trace + [UpdateDataFields(email, websiteId, storeName)];
    }

    /**
     * `_updateNewOrderDatafields`: sends the configured order datafields for
     * the order's customer email, and makes no call when none is configured.
     */
    method UpdateNewOrderDatafields(env: AutomationEnv)
      modifies this`trace
      ensures var data := ConfiguredDatafields(State(), env);
              trace == old(trace) + (if data != [] then [UpdateContactDatafieldsByEmail(websiteId, env.order(typeId).customerEmail, data)] else [])
    {
      var orderModel := env.order(typeId);
      var data := BuildNewOrderDatafields(State(), env);
      if data != [] {
        trace := trace + [UpdateContactDatafieldsByEmail(websiteId, orderModel.customerEmail, data)];
      }
    }

    /**
     * `_checkCampignEnrolmentActive`: false without a call for a falsy
     * program id; otherwise looks the program up, copies a returned status
     * into `programStatus`, and answers whether that status is Active.
     */
    method CheckCampaignEnrolmentActive(id: string, env: AutomationEnv) returns (active: bool)
      modifies this`programStatus, this`trace
      ensures active <==> Truthy(id) && env.programLookup(websiteId, id) == Some(StatusActive)
      ensures !Truthy(id) ==> trace == old(trace) && programStatus == old(programStatus)
      ensures Truthy(id) ==> trace == old(trace) + [GetProgram(websiteId, id)]
      ensures Truthy(id) && env.programLookup(websiteId, id).Some? ==> programStatus == env.programLookup(websiteId, id).value
      ensures env.programLookup(websiteId, id).None? ==> programStatus == old(programStatus)
    {
      if !Truthy(id) {
        return false;
      }
      trace := trace + [GetProgram(websiteId, id)];
      var program := env.programLookup(websiteId, id);
      if program.Some? {
        programStatus := program.value;
      }
      return program == Some(StatusActive);
    }

    /** `sendContactsToAutomation`: posts the contacts to this program with no address books and returns the answer's message. */
    method SendContactsToAutomation(contacts: seq<int>, env: AutomationEnv) returns (result: Option<string>)
      modifies this`trace
      ensures trace == old(trace) + [PostEnrolment(websiteId, EnrolmentRequest(contacts, programId, []))]
      ensures result == env.enrol(websiteId, EnrolmentRequest(contacts, programId, []))
    {
      var data := EnrolmentRequest(contacts, programId, []);
      trace := trace + [PostEnrolment(websiteId, data)];
      result := env.enrol(websiteId, data);
    }
  }
}
