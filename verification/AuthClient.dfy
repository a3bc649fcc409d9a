/** The client object itself: fields that its closures overwrite step by step,
    one method per stretch of code between two awaits.  Each method is proved
    against the corresponding `Step` of the protocol. */
module AuthClient {
  import opened Prelude
  import opened AuthProtocol

  /** The in-memory token store: `get` hands back what the last `set` put there. */
  class MemoryTokenStorage {
    var current: Option<Tokens>

    constructor (initial: Option<Tokens>)
      ensures current == initial
    {
      current := initial;
    }

    function Get(): Option<Tokens>
      reads this
    {
      current
    }

    method Set(tokens: Tokens)
      modifies this
      ensures Get() == Some(tokens)
    {
      current := Some(tokens);
    }

    method Clear()
      modifies this
      ensures Get() == None
    {
      current := None;
    }
  }

  class Client {
    const storage: MemoryTokenStorage
    var currentUser: Option<string>
    var refreshInFlight: Option<nat>
    var present: bool
    var tasks: seq<Task>          // calls in progress: the suspended async functions
    var rounds: seq<Round>        // the promises refreshInFlight has pointed to
    ghost var refreshBodies: seq<Option<string>>
    ghost var expired: seq<nat>
    ghost var issued: set<string>

    ghost function World(): World
      reads this, storage
    {
      AuthProtocol.World.World(storage.Get(), currentUser, refreshInFlight, present, tasks, rounds,
                               refreshBodies, expired, issued)
    }

    ghost predicate Valid()
      reads this, storage
    {
      Inv(World())
    }

    constructor (initial: MemoryTokenStorage, wasPresent: bool)
      ensures Valid() && Init(World())
      ensures storage == initial && World().store == initial.Get()
      ensures present == wasPresent && currentUser == None
    {
      storage := initial;
      currentUser := None;
      refreshInFlight := None;
      present := wasPresent;
      tasks := [];
      rounds := [];
      refreshBodies := [];
      expired := [];
      issued := if initial.Get().Some? then {initial.Get().value.refresh} else {};
      new;
      InitInv(World());
    }

    method SetSession(session: Session)
      modifies this`currentUser, this`present, storage
      ensures World() == old(World()).(store := Some(session.tokens), user := Some(session.user), present := true)
    {
      storage.Set(session.tokens);
      currentUser := Some(session.user);
      present := true;
    }

    /** `refresh()` up to the point where the caller awaits the shared promise. */
    method Refresh() returns (round: nat)
      requires Valid()
      modifies this`rounds, this`refreshBodies, this`refreshInFlight
      ensures (World(), round) == AuthProtocol.Refresh(old(World()))
      ensures Valid()
    {
      RefreshKeepsInv(World());
      if refreshInFlight.Some? {
        return refreshInFlight.value;
      }
      round := |rounds|;
      var existing := storage.Get();
      var body := if existing.Some? && existing.value.refresh != "" then Some(existing.value.refresh) else None;
      refreshBodies := refreshBodies + [body];
      rounds := rounds + [Pending(body)];
      refreshInFlight := Some(round);
    }

    method StartFetch() returns (t: nat)
      requires Valid()
      modifies this`tasks
      ensures World() == Step(old(World()), CallFetch) && Valid()
      ensures t == old(|tasks|)
    {
      StepKeepsInv(World(), CallFetch);
      t := |tasks|;
      var held := storage.Get();
      tasks := tasks + [Fetch([if held.Some? then Some(held.value.access) else None], First)];
    }

    method OnFetchReply(t: nat, net: NetReply)
      requires Valid() && Enabled(World(), FetchReply(t, net))
      modifies this
      ensures World() == Step(old(World()), FetchReply(t, net)) && Valid()
    {
      StepKeepsInv(World(), FetchReply(t, net));
      assert FetchAccounted(World(), tasks[t].bearers, tasks[t].phase);
      var bearers, phase := tasks[t].bearers, tasks[t].phase;
      match net
      case NetworkError =>
        tasks := tasks[t := Fetch(bearers, Over(ThrewNetwork, if phase.Second? then Some(phase.round) else None))];
      case Response(status) =>
        if phase.First? && status == 401 && bearers[0].Some? {
          var round := Refresh();
          tasks := tasks[t := Fetch(bearers, Waiting(round))];
        } else {
          var joined := if phase.Second? then Some(phase.round) else None;
          tasks := tasks[t := Fetch(bearers, Over(Returned(status), joined))];
        }
    }

    method OnRefreshReply(r: nat, reply: PostReply<Tokens>)
      requires Valid() && Enabled(World(), RefreshReply(r, reply))
      modifies this, storage
      ensures World() == Step(old(World()), RefreshReply(r, reply)) && Valid()
    {
      StepKeepsInv(World(), RefreshReply(r, reply));
      match reply {
        case Ok(tokens) =>
          storage.Set(tokens);
          present := true;
          issued := Issue(issued, tokens);
        case _ =>
          storage.Clear();
          currentUser := None;
          present := false;
          expired := expired + [r];
      }
      rounds := rounds[r := Settled(rounds[r].body, OutcomeOf(reply))];
      refreshInFlight := None;
    }

    method OnResume(t: nat)
      requires Valid() && Enabled(World(), Resume(t))
      modifies this`tasks
      ensures World() == Step(old(World()), Resume(t)) && Valid()
    {
      StepKeepsInv(World(), Resume(t));
      var bearers, r := tasks[t].bearers, tasks[t].phase.round;
      match rounds[r].outcome
      case Success(minted) =>
        tasks := tasks[t := Fetch(bearers + [Some(minted.access)], Second(r))];
      case Failure(error) =>
        tasks := tasks[t := Fetch(bearers, Over(ThrewAuth(error), Some(r)))];
    }

    method StartLogin() returns (t: nat)
      requires Valid()
      modifies this`tasks
      ensures World() == Step(old(World()), CallLogin) && Valid()
      ensures t == old(|tasks|)
    {
      StepKeepsInv(World(), CallLogin);
      t := |tasks|;
      tasks := tasks + [Login];
    }

    method OnLoginReply(t: nat, reply: PostReply<Session>)
      requires Valid() && Enabled(World(), LoginReply(t, reply))
      modifies this, storage
      ensures World() == Step(old(World()), LoginReply(t, reply)) && Valid()
    {
      StepKeepsInv(World(), LoginReply(t, reply));
      if reply.Ok? {
        SetSession(reply.value);
        issued := Issue(issued, reply.value.tokens);
      }
      tasks := tasks[t := Done(reply.Ok?)];
    }

    method StartRestore()
      requires Valid()
      modifies this
      ensures World() == Step(old(World()), CallRestore) && Valid()
    {
      StepKeepsInv(World(), CallRestore);
      if storage.Get().Some? {
        tasks := tasks + [Done(true)];
      } else {
        refreshBodies := refreshBodies + [None];
        tasks := tasks + [Restore];
      }
    }

    method OnRestoreReply(t: nat, reply: PostReply<Tokens>)
      requires Valid() && Enabled(World(), RestoreReply(t, reply))
      modifies this, storage
      ensures World() == Step(old(World()), RestoreReply(t, reply)) && Valid()
    {
      StepKeepsInv(World(), RestoreReply(t, reply));
      match reply {
        case Ok(tokens) =>
          storage.Set(tokens);
          present := true;
          issued := Issue(issued, tokens);
        case _ =>
          present := false;
      }
      tasks := tasks[t := Done(reply.Ok?)];
    }

    method StartLogout() returns (t: nat)
      requires Valid()
      modifies this`tasks
      ensures World() == Step(old(World()), CallLogout) && Valid()
      ensures t == old(|tasks|)
    {
      StepKeepsInv(World(), CallLogout);
      t := |tasks|;
      tasks := tasks + [Logout];
    }

    method OnLogoutReply(t: nat)
      requires Valid() && Enabled(World(), LogoutReply(t))
      modifies this, storage
      ensures World() == Step(old(World()), LogoutReply(t)) && Valid()
    {
      StepKeepsInv(World(), LogoutReply(t));
      storage.Clear();
      currentUser := None;
      present := false;
      tasks := tasks[t := Done(true)];
    }
  }
}
