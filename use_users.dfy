/** The store as the components see it (`UserProvider` in
    src/context/UserContext.jsx) and the four data operations of
    src/hooks/useUsers.jsx. The user service is not modelled: each operation
    takes the service's answer as a parameter and records the request it
    would have sent in a ghost log. */
module UseUsers {
  import opened Wrappers
  import opened UserModel
  import opened UserContext

  /** A call to the user service. */
  datatype Request =
    | ListUsers
    | CreateRequest(input: UserInput)
    | UpdateRequest(id: int, input: UserInput)
    | DeleteRequest(id: int)

  /** The actions `fetchUsers` dispatches for a given service answer. */
  function FetchActions(outcome: Outcome<seq<User>>): (r: seq<Action>)
    ensures |r| >= 3 && r[0] == SetLoading(true) && r[|r| - 1] == SetLoading(false)
    ensures forall i :: 0 < i < |r| - 1 ==> !r[i].SetLoading?
    ensures outcome.Failure? <==> r[1].SetError?
  {
    match outcome
    case Success(us) =>
      [SetLoading(true), SetUsers(us), SetPagination(PaginationPatch(None, None, Some(|us|))), SetLoading(false)]
    case Failure(msg) => [SetLoading(true), SetError(msg), SetLoading(false)]
  }

  /** The actions `createUser` dispatches. */
  function CreateActions(outcome: Outcome<User>): (r: seq<Action>)
    ensures |r| == 3 && r[0] == SetLoading(true) && r[2] == SetLoading(false)
    ensures outcome.Success? ==> r[1] == AddUser(outcome.value)
    ensures outcome.Failure? <==> r[1].SetError?
  {
    match outcome
    case Success(u) => [SetLoading(true), AddUser(u), SetLoading(false)]
    case Failure(msg) => [SetLoading(true), SetError(msg), SetLoading(false)]
  }

  /** The actions `updateUser` dispatches. */
  function UpdateActions(outcome: Outcome<User>): (r: seq<Action>)
    ensures |r| == 3 && r[0] == SetLoading(true) && r[2] == SetLoading(false)
    ensures outcome.Success? ==> r[1] == UpdateUser(outcome.value)
    ensures outcome.Failure? <==> r[1].SetError?
  {
    match outcome
    case Success(u) => [SetLoading(true), UpdateUser(u), SetLoading(false)]
    case Failure(msg) => [SetLoading(true), SetError(msg), SetLoading(false)]
  }

  /** The actions `deleteUser` dispatches; the service's answer carries no
      data the store uses. */
  function DeleteActions(id: int, outcome: Outcome<()>): (r: seq<Action>)
    ensures |r| == 3 && r[0] == SetLoading(true) && r[2] == SetLoading(false)
    ensures outcome.Success? ==> r[1] == DeleteUser(id)
    ensures outcome.Failure? <==> r[1].SetError?
  {
    match outcome
    case Success(_) => [SetLoading(true), DeleteUser(id), SetLoading(false)]
    case Failure(msg) => [SetLoading(true), SetError(msg), SetLoading(false)]
  }

  /** What a failed call does to the store: whatever the operation, it keeps
      the users, records the message and is no longer loading. */
  lemma FailureEffect(s: State, msg: string, id: int)
    ensures Run(s, FetchActions(Failure(msg))) == s.(error := Some(msg), loading := false)
    ensures Run(s, CreateActions(Failure(msg))) == s.(error := Some(msg), loading := false)
    ensures Run(s, UpdateActions(Failure(msg))) == s.(error := Some(msg), loading := false)
    ensures Run(s, DeleteActions(id, Failure(msg))) == s.(error := Some(msg), loading := false)
  {
    RunThree(s, SetLoading(true), SetError(msg), SetLoading(false));
  }

  /** A successful fetch replaces the users, clears the error, counts the
      fetched users as `totalItems` and ends loading; filters, sort and the
      current page stay. */
  lemma FetchSuccessEffect(s: State, us: seq<User>)
    ensures Run(s, FetchActions(Success(us)))
      == s.(users := us, error := None, loading := false, pagination := s.pagination.(totalItems := |us|))
  {
    RunFour(s, SetLoading(true), SetUsers(us), SetPagination(PaginationPatch(None, None, Some(|us|))), SetLoading(false));
  }

  /** A successful create puts the new record first and counts one more
      item, ends loading and leaves the error as it was. */
  lemma CreateSuccessEffect(s: State, u: User)
    ensures Run(s, CreateActions(Success(u)))
      == s.(users := [u] + s.users, loading := false, pagination := s.pagination.(totalItems := s.pagination.totalItems + 1))
  {
    RunThree(s, SetLoading(true), AddUser(u), SetLoading(false));
  }

  /** A successful update replaces the records with the answer's id, ends
      loading and leaves everything else as it was. */
  lemma UpdateSuccessEffect(s: State, u: User)
    ensures Run(s, UpdateActions(Success(u))) == s.(users := ReplaceById(s.users, u), loading := false)
  {
    RunThree(s, SetLoading(true), Action.UpdateUser(u), SetLoading(false));
  }

  /** A successful delete removes the id, counts one item fewer, ends
      loading and leaves the error as it was. */
  lemma DeleteSuccessEffect(s: State, id: int)
    ensures Run(s, DeleteActions(id, Success(())))
      == s.(users := RemoveById(s.users, id), loading := false, pagination := s.pagination.(totalItems := s.pagination.totalItems - 1))
  {
    RunThree(s, SetLoading(true), Action.DeleteUser(id), SetLoading(false));
  }

  /** Holds the reducer's state and replaces it on every dispatch. */
  class UserStore {
    var state: State
    /** Every action dispatched so far, oldest first. */
    ghost var trace: seq<Action>
    /** Every request sent to the user service so far, oldest first. */
    ghost var requests: seq<Request>

    /** `useReducer(userReducer, initialState)`. */
    constructor ()
      ensures state == InitialState() && trace == [] && requests == []
    {
      state := InitialState();
      trace := [];
      requests := [];
    }

    method Dispatch(action: Action)
      modifies this
      ensures state == UserReducer(old(state), action)
      ensures trace == old(trace) + [action]
      ensures requests == old(requests)
    {
      state := UserReducer(state, action);
      trace := trace + [action];
    }

    /** `fetchUsers`: the error is reported in the state, never to the caller. */
    method FetchUsers(outcome: Outcome<seq<User>>)
      modifies this
      ensures trace == old(trace) + FetchActions(outcome)
      ensures state == Run(old(state), FetchActions(outcome))
      ensures requests == old(requests) + [ListUsers]
      ensures !state.loading
      ensures outcome.Success? ==> state.users == outcome.value && state.pagination.totalItems == |outcome.value|
      ensures outcome.Failure? ==> state.users == old(state.users) && state.error == Some(outcome.message)
    {
      ghost var s0 := state;
      Dispatch(SetLoading(true));
      requests := requests + [ListUsers];
      match outcome {
        case Success(us) =>
          Dispatch(SetUsers(us));
          Dispatch(SetPagination(PaginationPatch(None, None, Some(|us|))));
        case Failure(msg) =>
          Dispatch(SetError(msg));
      }
      Dispatch(SetLoading(false));
      match outcome {
        case Success(us) => FetchSuccessEffect(s0, us);
        case Failure(msg) => FailureEffect(s0, msg, 0);
      }
    }

    /** `createUser`: returns the created record, or hands the failure back
        to the caller after recording it. */
    method CreateUser(input: UserInput, outcome: Outcome<User>) returns (result: Outcome<User>)
      modifies this
      ensures result == outcome
      ensures trace == old(trace) + CreateActions(outcome)
      ensures state == Run(old(state), CreateActions(outcome))
      ensures requests == old(requests) + [CreateRequest(input)]
      ensures !state.loading
      ensures outcome.Success? ==> state.users == [outcome.value] + old(state.users)
      ensures outcome.Failure? ==> state.users == old(state.users) && state.error == Some(outcome.message)
    {
      ghost var s0 := state;
      Dispatch(SetLoading(true));
      requests := requests + [CreateRequest(input)];
      match outcome {
        case Success(u) => Dispatch(AddUser(u));
        case Failure(msg) => Dispatch(SetError(msg));
      }
      Dispatch(SetLoading(false));
      match outcome {
        case Success(u) => CreateSuccessEffect(s0, u);
        case Failure(msg) => FailureEffect(s0, msg, 0);
      }
      result := outcome;
    }

    /** `updateUser`: the store takes the record the service answers with. */
    method UpdateUser(id: int, input: UserInput, outcome: Outcome<User>) returns (result: Outcome<User>)
      modifies this
      ensures result == outcome
      ensures trace == old(trace) + UpdateActions(outcome)
      ensures state == Run(old(state), UpdateActions(outcome))
      ensures requests == old(requests) + [UpdateRequest(id, input)]
      ensures !state.loading
      ensures outcome.Success? ==> state.users == ReplaceById(old(state.users), outcome.value)
      ensures outcome.Failure? ==> state.users == old(state.users) && state.error == Some(outcome.message)
    {
      ghost var s0 := state;
      Dispatch(SetLoading(true));
      requests := requests + [UpdateRequest(id, input)];
      match outcome {
        case Success(u) => Dispatch(Action.UpdateUser(u));
        case Failure(msg) => Dispatch(SetError(msg));
      }
      Dispatch(SetLoading(false));
      match outcome {
        case Success(u) => UpdateSuccessEffect(s0, u);
        case Failure(msg) => FailureEffect(s0, msg, 0);
      }
      result := outcome;
    }

    /** `deleteUser`: `failure` is the message handed back to the caller. */
    method DeleteUser(id: int, outcome: Outcome<()>) returns (failure: Option<string>)
      modifies this
      ensures failure == if outcome.Failure? then Some(outcome.message) else None
      ensures trace == old(trace) + DeleteActions(id, outcome)
      ensures state == Run(old(state), DeleteActions(id, outcome))
      ensures requests == old(requests) + [DeleteRequest(id)]
      ensures !state.loading
      ensures outcome.Success? ==> state.users == RemoveById(old(state.users), id)
      ensures outcome.Failure? ==> state.users == old(state.users) && state.error == Some(outcome.message)
    {
      ghost var s0 := state;
      Dispatch(SetLoading(true));
      requests := requests + [DeleteRequest(id)];
      match outcome {
        case Success(_) =>
          Dispatch(Action.DeleteUser(id));
          Dispatch(SetLoading(false));
          failure := None;
          DeleteSuccessEffect(s0, id);
        case Failure(msg) =>
          Dispatch(SetError(msg));
          Dispatch(SetLoading(false));
          failure := Some(msg);
          FailureEffect(s0, msg, id);
      }
    }
  }
}
