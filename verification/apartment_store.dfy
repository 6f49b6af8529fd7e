/** The apartment store: the lists of buildings, the building on screen, and what each of its
    operations does to them given the service's answer. Every operation is a function from the
    old state and the answer to the new state and what the call returns or throws. */
module ApartmentStore {
  import opened Options
  import opened Js
  import opened Seqs

  /** The observable state. `currentApartment` is `null` or a building; `error` is `null` or
      the message of the last failure. */
  datatype State = State(apartments: seq<Value>, myApartments: seq<Value>, currentApartment: Value,
                         apartmentUnits: Value, loading: bool, error: Value)

  /** The starting state. */
  const Initial: State := State([], [], Null, Arr([]), false, Null)

  /** The service's answer to one request: the data, or the error it rejects with. */
  datatype Response = Ok(data: Value) | Failed(err: Value)

  /** What the awaited call gives its caller: a value, or an error thrown at it. */
  datatype Result = Returned(value: Value) | Thrown(err: Value)

  /** The new state together with the result. */
  datatype Step = Step(state: State, result: Result)

  /** `new Error(message)`, as far as callers read it. */
  function ErrorObject(message: string): (e: Value)
    ensures Get(e, "message") == Str(message)
  {
    Obj(map["message" := Str(message)])
  }

  const MissingIdMessage: string := "Invalid response from server: Missing apartment ID"
  const BadUpdateIdMessage: string := "Invalid apartment ID for update"
  const BadDeleteIdMessage: string := "Invalid apartment ID for deletion"

  /** `!id || isNaN(id)` on a number: zero and NaN are rejected. */
  predicate BadId(id: Value) {
    !Truthy(id) || id.NaN?
  }

  /** `a.id === id`. */
  predicate HasIdOf(id: Value, a: Value) {
    StrictEquals(Get(a, "id"), id)
  }

  /** The test `a => a.id === id`. */
  function Matches(id: Value): Value -> bool {
    a => HasIdOf(id, a)
  }

  /** The test `a => a.id !== id`. */
  function Others(id: Value): Value -> bool {
    a => !HasIdOf(id, a)
  }

  /** A failed request records the error's message and ends the loading. */
  function Failure(s: State, err: Value): (t: State)
    ensures t == s.(error := Get(err, "message"), loading := false)
  {
    s.(error := Get(err, "message"), loading := false)
  }

  // ---------------------------------------------------------------- the lists

  /** `fetchApartments`: the answer replaces the list when it is an array, and empties it
      otherwise. */
  function FetchApartments(s: State, resp: Response): (t: State)
    ensures !t.loading
    ensures resp.Ok? ==> t.apartments == Items(resp.data) && t.error == Null
    ensures resp.Failed? ==> t.apartments == s.apartments && t.error == Get(resp.err, "message")
    ensures t.myApartments == s.myApartments && t.currentApartment == s.currentApartment
    ensures t.apartmentUnits == s.apartmentUnits
  {
    match resp
    case Ok(data) => s.(apartments := if data.Arr? then data.items else [], error := Null, loading := false)
    case Failed(err) => Failure(s, err)
  }

  /** `fetchMyApartments`, the same for the user's own buildings. */
  function FetchMyApartments(s: State, resp: Response): (t: State)
    ensures !t.loading
    ensures resp.Ok? ==> t.myApartments == Items(resp.data) && t.error == Null
    ensures resp.Failed? ==> t.myApartments == s.myApartments && t.error == Get(resp.err, "message")
    ensures t.apartments == s.apartments && t.currentApartment == s.currentApartment
    ensures t.apartmentUnits == s.apartmentUnits
  {
    match resp
    case Ok(data) => s.(myApartments := if data.Arr? then data.items else [], error := Null, loading := false)
    case Failed(err) => Failure(s, err)
  }

  /** `fetchApartmentUnits`: the answer is stored as it is. */
  function FetchApartmentUnits(s: State, resp: Response): (t: State)
    ensures !t.loading
    ensures resp.Ok? ==> t.apartmentUnits == resp.data && t.error == Null
    ensures resp.Failed? ==> t.apartmentUnits == s.apartmentUnits && t.error == Get(resp.err, "message")
    ensures t.apartments == s.apartments && t.myApartments == s.myApartments
    ensures t.currentApartment == s.currentApartment
  {
    match resp
    case Ok(data) => s.(apartmentUnits := data, error := Null, loading := false)
    case Failed(err) => Failure(s, err)
  }

  // ---------------------------------------------------------------- one building

  /** A building the server identified, by `id` or by `apartment_id`. */
  predicate Identified(d: Value) {
    Truthy(d) && (Truthy(Get(d, "id")) || Truthy(Get(d, "apartment_id")))
  }

  /** Copy `apartment_id` into a missing `id`. */
  function Normalize(d: Value): (r: Value)
    ensures Identified(d) ==> Truthy(Get(r, "id"))
    ensures Truthy(Get(d, "id")) ==> r == d
    ensures forall k :: k != "id" ==> Get(r, k) == Get(d, k)
    ensures Identified(r) <==> Identified(d)
  {
    if d.Obj? && !Truthy(Get(d, "id")) && Truthy(Get(d, "apartment_id")) then
      Obj(d.fields["id" := Get(d, "apartment_id")])
    else d
  }

  /** `fetchApartmentById`. A bad id returns `null` and touches nothing. An identified answer
      becomes the current building; any other answer clears it and is still returned. A failed
      request is caught: the error is recorded and the call returns `undefined`. */
  function FetchApartmentById(s: State, id: Value, resp: Response): (st: Step)
    ensures BadId(id) ==> st == Step(s, Returned(Null))
    ensures st.result.Returned?
    ensures !BadId(id) ==> !st.state.loading
    ensures !BadId(id) && resp.Ok? && Identified(resp.data) ==>
      st.state.currentApartment == Normalize(resp.data) && st.state.error == Null
      && st.result.value == Normalize(resp.data) && Truthy(Get(st.state.currentApartment, "id"))
    ensures !BadId(id) && resp.Ok? && !Identified(resp.data) ==>
      st.state.currentApartment == Null && st.result.value == resp.data && st.state.error == s.error
    ensures !BadId(id) && resp.Failed? ==>
      st == Step(Failure(s, resp.err), Returned(Undefined))
    ensures st.state.apartments == s.apartments && st.state.myApartments == s.myApartments
  {
    if BadId(id) then Step(s, Returned(Null))
    else match resp
      case Ok(data) =>
        if Identified(data) then
          Step(s.(currentApartment := Normalize(data), error := Null, loading := false), Returned(Normalize(data)))
        else Step(s.(currentApartment := Null, loading := false), Returned(data))
      case Failed(err) => Step(Failure(s, err), Returned(Undefined))
  }

  /** `createApartment`: a new building with an id goes to the front of the user's list; an
      answer without an id, or a failure, is thrown and the lists stay as they were. */
  function CreateApartment(s: State, resp: Response): (st: Step)
    ensures !st.state.loading
    ensures st.result.Returned? <==> resp.Ok? && Truthy(resp.data) && Truthy(Get(resp.data, "id"))
    ensures st.result.Returned? ==>
      st.result.value == resp.data && st.state.myApartments == [resp.data] + s.myApartments
      && st.state.error == Null
    ensures st.result.Thrown? ==>
      st.state.myApartments == s.myApartments && st.state.error == Get(st.result.err, "message")
    ensures resp.Ok? && st.result.Thrown? ==> st.result.err == ErrorObject(MissingIdMessage)
    ensures resp.Failed? ==> st.result == Thrown(resp.err)
    ensures st.state.apartments == s.apartments && st.state.currentApartment == s.currentApartment
  {
    match resp
    case Ok(d) =>
      if !Truthy(d) || !Truthy(Get(d, "id")) then
        Step(Failure(s, ErrorObject(MissingIdMessage)), Thrown(ErrorObject(MissingIdMessage)))
      else Step(s.(myApartments := [d] + s.myApartments, error := Null, loading := false), Returned(d))
    case Failed(err) => Step(Failure(s, err), Thrown(err))
  }

  /** Put `u` where the building `id` is: in the user's list at the first match only, and as
      the current building when that is the one. */
  function Replace(s: State, id: Value, u: Value): (t: State)
    ensures t.myApartments == ReplaceFirst(s.myApartments, Matches(id), u)
    ensures t.currentApartment == if HasIdOf(id, s.currentApartment) then u else s.currentApartment
    ensures t.apartments == s.apartments && t.loading == s.loading && t.error == s.error
  {
    s.(myApartments := ReplaceFirst(s.myApartments, Matches(id), u),
       currentApartment := if HasIdOf(id, s.currentApartment) then u else s.currentApartment)
  }

  /** `updateApartment`. A bad id throws before anything changes. Otherwise an answer without
      `id` or `apartment_id`, or a failure, is thrown and recorded; an identified answer,
      normalized, replaces the building. */
  function UpdateApartment(s: State, id: Value, resp: Response): (st: Step)
    ensures BadId(id) ==> st == Step(s, Thrown(ErrorObject(BadUpdateIdMessage)))
    ensures !BadId(id) ==> !st.state.loading
    ensures !BadId(id) ==> (st.result.Returned? <==> resp.Ok? && Identified(resp.data))
    ensures !BadId(id) && st.result.Returned? ==>
      st.result.value == Normalize(resp.data)
      && st.state == Replace(s, id, Normalize(resp.data)).(error := Null, loading := false)
    ensures !BadId(id) && st.result.Thrown? ==>
      st.state == Failure(s, st.result.err)
    ensures !BadId(id) && resp.Ok? && st.result.Thrown? ==> st.result.err == ErrorObject(MissingIdMessage)
  {
    if BadId(id) then Step(s, Thrown(ErrorObject(BadUpdateIdMessage)))
    else match resp
      case Ok(d) =>
        if !Identified(d) then Step(Failure(s, ErrorObject(MissingIdMessage)), Thrown(ErrorObject(MissingIdMessage)))
        else
          var u := Normalize(d);
          Step(Replace(s, id, u).(error := Null, loading := false), Returned(u))
      case Failed(err) => Step(Failure(s, err), Thrown(err))
  }

  /** `deleteApartment`. A bad id throws before anything changes. On success every building
      with that id leaves both lists and the current building is cleared when it is the one. */
  function DeleteApartment(s: State, id: Value, resp: Response): (st: Step)
    ensures BadId(id) ==> st == Step(s, Thrown(ErrorObject(BadDeleteIdMessage)))
    ensures !BadId(id) ==> !st.state.loading
    ensures !BadId(id) && resp.Ok? ==>
      st.result == Returned(Undefined) && st.state.error == Null
      && st.state.myApartments == Filter(s.myApartments, Others(id))
      && st.state.apartments == Filter(s.apartments, Others(id))
      && st.state.currentApartment == (if HasIdOf(id, s.currentApartment) then Null else s.currentApartment)
    ensures !BadId(id) && resp.Failed? ==> st == Step(Failure(s, resp.err), Thrown(resp.err))
  {
    if BadId(id) then Step(s, Thrown(ErrorObject(BadDeleteIdMessage)))
    else match resp
      case Ok(_) =>
        Step(s.(myApartments := Filter(s.myApartments, Others(id)),
                apartments := Filter(s.apartments, Others(id)),
                currentApartment := if HasIdOf(id, s.currentApartment) then Null else s.currentApartment,
                error := Null, loading := false),
             Returned(Undefined))
      case Failed(err) => Step(Failure(s, err), Thrown(err))
  }

  /** `uploadApartmentFiles` and `deleteApartmentFile`: the answer replaces the building; a
      failure is thrown with no change at all, not even to `error`. Neither touches `loading`. */
  function ChangeFiles(s: State, id: Value, resp: Response): (st: Step)
    ensures resp.Ok? ==> st == Step(Replace(s, id, resp.data), Returned(resp.data))
    ensures resp.Failed? ==> st == Step(s, Thrown(resp.err))
    ensures st.state.loading == s.loading && st.state.error == s.error
  {
    match resp
    case Ok(u) => Step(Replace(s, id, u), Returned(u))
    case Failed(err) => Step(s, Thrown(err))
  }

  // ---------------------------------------------------------------- properties

  /** Replacing touches the user's list at the first building with the id and nowhere else. */
  lemma ReplaceTouchesFirstMatchOnly(s: State, id: Value, u: Value, i: nat)
    requires i < |s.myApartments| && HasIdOf(id, s.myApartments[i])
    requires forall j :: 0 <= j < i ==> !HasIdOf(id, s.myApartments[j])
    ensures Replace(s, id, u).myApartments == s.myApartments[i := u]
  {
    var r := Replace(s, id, u).myApartments;
    var p := Matches(id);
    forall j | 0 <= j < |r|
      ensures r[j] == s.myApartments[i := u][j]
    {
      if j > i {
        assert p(s.myApartments[i]);
      }
    }
  }

  /** After a successful delete no building with the id is left, and the others keep their
      order. */
  lemma DeleteRemovesAll(s: State, id: Value, resp: Response)
    requires !BadId(id) && resp.Ok?
    ensures forall a :: a in DeleteApartment(s, id, resp).state.myApartments ==> !HasIdOf(id, a)
    ensures forall a :: a in s.myApartments && !HasIdOf(id, a) ==> a in DeleteApartment(s, id, resp).state.myApartments
    ensures IsSubsequence(DeleteApartment(s, id, resp).state.myApartments, s.myApartments)
    ensures IsSubsequence(DeleteApartment(s, id, resp).state.apartments, s.apartments)
  {
    FilterIsSubsequence(s.myApartments, Others(id));
    FilterIsSubsequence(s.apartments, Others(id));
  }

  /** Deleting the same building twice leaves the lists as the first delete did. */
  lemma DeleteIdempotent(s: State, id: Value, resp: Response, resp2: Response)
    requires !BadId(id) && resp.Ok? && resp2.Ok?
    ensures var once := DeleteApartment(s, id, resp).state;
      DeleteApartment(once, id, resp2).state == once
  {
    var once := DeleteApartment(s, id, resp).state;
    FilterAll(once.myApartments, Others(id));
    FilterAll(once.apartments, Others(id));
  }

  /** Every operation that gets past its id check leaves the store not loading. */
  lemma LoadingEnds(s: State, id: Value, resp: Response)
    requires !BadId(id)
    ensures !FetchApartmentById(s, id, resp).state.loading
    ensures !UpdateApartment(s, id, resp).state.loading
    ensures !DeleteApartment(s, id, resp).state.loading
    ensures !CreateApartment(s, resp).state.loading
  {
  }

  /** An update or delete refused for its id leaves the store exactly as it was. */
  lemma BadIdChangesNothing(s: State, id: Value, resp: Response)
    requires BadId(id)
    ensures UpdateApartment(s, id, resp).state == s && UpdateApartment(s, id, resp).result.Thrown?
    ensures DeleteApartment(s, id, resp).state == s && DeleteApartment(s, id, resp).result.Thrown?
    ensures FetchApartmentById(s, id, resp) == Step(s, Returned(Null))
  {
  }

  /** A created building is then found by its id at the front of the user's list. */
  lemma CreatedIsFirst(s: State, resp: Response)
    requires CreateApartment(s, resp).result.Returned?
    ensures var st := CreateApartment(s, resp);
      st.state.myApartments[0] == st.result.value && Truthy(Get(st.state.myApartments[0], "id"))
      && st.state.myApartments[1..] == s.myApartments
  {
  }
}
