/**
 The request-counting service layered on the store. Every operation the web
 layer calls adds one to a request counter before it reaches the store;
 the read used by the background reporter does not count. The atomic
 add of the Go implementation is one sequential step `counter := counter + 1`.

 The first half states the service as a state machine on values (`Step`,
 `Run`); the class `DataService` then performs each request in place and
 promises the same step.
 */
module Service {
  import opened Storage

  /** The operations the service offers. */
  datatype Request =
    | SaveKeyValue(key: string, value: string)
    | GetAll
    | DeleteKey(key: string)
    | GetStats
    | GetCurrentStats

  /** What each operation hands back to its caller. */
  datatype Reply =
    | Saved
    | Entries(entries: map<string, string>)
    | Deleted(existed: bool)
    | Stats(totalRequests: nat, size: nat)

  /** The service's whole observable state: the request counter and the store's contents. */
  datatype State = State(totalRequests: nat, store: map<string, string>)

  /** A service that has just been wrapped around a store holding `store`. */
  function Fresh(store: map<string, string>): State
  {
    State(0, store)
  }

  /** Every request except the reporter's read is counted. */
  predicate Counted(req: Request)
  {
    !req.GetCurrentStats?
  }

  /** One request: the new state and the reply. */
  function Step(s: State, req: Request): (result: (State, Reply))
    ensures result.0.totalRequests == s.totalRequests + (if Counted(req) then 1 else 0)
  {
    match req
    case SaveKeyValue(k, v) => (State(s.totalRequests + 1, s.store[k := v]), Saved)
    case GetAll => (State(s.totalRequests + 1, s.store), Entries(s.store))
    case DeleteKey(k) => (State(s.totalRequests + 1, s.store - {k}), Deleted(k in s.store))
    case GetStats => (State(s.totalRequests + 1, s.store), Stats(s.totalRequests + 1, |s.store|))
    case GetCurrentStats => (s, Stats(s.totalRequests, |s.store|))
  }

  /** The state after serving `reqs` one after another. */
  function Run(s: State, reqs: seq<Request>): State
    decreases |reqs|
  {
    if reqs == [] then s else Run(Step(s, reqs[0]).0, reqs[1..])
  }

  /** How many of `reqs` are counted. */
  function CountedIn(reqs: seq<Request>): (n: nat)
    ensures n <= |reqs|
  {
    if reqs == [] then 0 else (if Counted(reqs[0]) then 1 else 0) + CountedIn(reqs[1..])
  }

  /** The store's contents after `reqs`: only saves and deletes change it. */
  function Apply(store: map<string, string>, reqs: seq<Request>): map<string, string>
    decreases |reqs|
  {
    if reqs == [] then store
    else
      match reqs[0]
      case SaveKeyValue(k, v) => Apply(store[k := v], reqs[1..])
      case DeleteKey(k) => Apply(store - {k}, reqs[1..])
      case _ => Apply(store, reqs[1..])
  }

  /**
   Across any sequence of requests the counter grows by exactly the number
   of counted requests, and the store ends up as the saves and deletes alone
   make it, whatever the counter was.
   */
  lemma {:induction false} RunCountsRequests(s: State, reqs: seq<Request>)
    ensures Run(s, reqs).totalRequests == s.totalRequests + CountedIn(reqs)
    ensures Run(s, reqs).store == Apply(s.store, reqs)
    decreases |reqs|
  {
    if reqs != [] {
      RunCountsRequests(Step(s, reqs[0]).0, reqs[1..]);
    }
  }

  /** The counter never goes down. */
  lemma CounterNeverDecreases(s: State, reqs: seq<Request>)
    ensures Run(s, reqs).totalRequests >= s.totalRequests
  {
    RunCountsRequests(s, reqs);
  }

  /**
   On a service wrapped around `store`, GetStats after `reqs` reports every
   counted request so far plus itself, and the size of the store the saves
   and deletes left.
   */
  lemma StatsCountItself(store: map<string, string>, reqs: seq<Request>)
    ensures Step(Run(Fresh(store), reqs), GetStats).1
            == Stats(CountedIn(reqs) + 1, |Apply(store, reqs)|)
  {
    RunCountsRequests(Fresh(store), reqs);
  }

  /** Polling with GetCurrentStats, however often, changes neither the counter nor the store. */
  lemma {:induction false} PollingIsInvisible(s: State, polls: seq<Request>)
    requires forall i :: 0 <= i < |polls| ==> polls[i] == GetCurrentStats
    ensures Run(s, polls) == s
    decreases |polls|
  {
    if polls != [] {
      assert polls[0] == GetCurrentStats;
      PollingIsInvisible(s, polls[1..]);
    }
  }

  /**
   DeleteKey answers true exactly when the key is present; a DeleteKey right
   after another of the same key answers false, and one right after a save
   of the key answers true.
   */
  lemma DeleteReportsPresence(s: State, key: string, value: string)
    ensures Step(s, DeleteKey(key)).1 == Deleted(key in s.store)
    ensures Step(Step(s, DeleteKey(key)).0, DeleteKey(key)).1 == Deleted(false)
    ensures Step(Step(s, SaveKeyValue(key, value)).0, DeleteKey(key)).1 == Deleted(true)
  {
  }

  /**
   A key that is absent stays absent, and a DeleteKey of it answers false,
   through any requests until it is saved again.
   */
  lemma {:induction false} AbsentUntilSaved(s: State, key: string, reqs: seq<Request>)
    requires key !in s.store
    requires forall i :: 0 <= i < |reqs| ==> !(reqs[i].SaveKeyValue? && reqs[i].key == key)
    ensures key !in Run(s, reqs).store
    ensures Step(Run(s, reqs), DeleteKey(key)).1 == Deleted(false)
    decreases |reqs|
  {
    if reqs != [] {
      assert !(reqs[0].SaveKeyValue? && reqs[0].key == key);
      AbsentUntilSaved(Step(s, reqs[0]).0, key, reqs[1..]);
    }
  }

  /**
   The most recent save of a key wins: through any requests that neither
   save nor delete that key, a lookup finds the value last saved.
   */
  lemma {:induction false} LatestSaveWins(s: State, key: string, value: string, reqs: seq<Request>)
    requires forall i :: 0 <= i < |reqs| ==> !((reqs[i].SaveKeyValue? || reqs[i].DeleteKey?) && reqs[i].key == key)
    ensures key in Run(Step(s, SaveKeyValue(key, value)).0, reqs).store
    ensures Run(Step(s, SaveKeyValue(key, value)).0, reqs).store[key] == value
    decreases |reqs|
  {
    KeptThrough(Step(s, SaveKeyValue(key, value)).0, key, value, reqs);
  }

  /** A present entry survives any requests that neither save nor delete its key. */
  lemma {:induction false} KeptThrough(s: State, key: string, value: string, reqs: seq<Request>)
    requires key in s.store && s.store[key] == value
    requires forall i :: 0 <= i < |reqs| ==> !((reqs[i].SaveKeyValue? || reqs[i].DeleteKey?) && reqs[i].key == key)
    ensures key in Run(s, reqs).store && Run(s, reqs).store[key] == value
    decreases |reqs|
  {
    if reqs != [] {
      assert !((reqs[0].SaveKeyValue? || reqs[0].DeleteKey?) && reqs[0].key == key);
      KeptThrough(Step(s, reqs[0]).0, key, value, reqs[1..]);
    }
  }

  class DataService {
    const storage: DataStorage
    var totalRequest: nat

    /** The service's state as a value. */
    function Abstract(): State
      reads this, storage
    {
      State(totalRequest, storage.data)
    }

    /** Wraps `storage` with a counter at zero; the store is not touched. */
    constructor (storage: DataStorage)
      ensures this.storage == storage
      ensures totalRequest == 0
      ensures Abstract() == Fresh(storage.data)
    {
      this.storage := storage;
      totalRequest := 0;
    }

    /** Counts the request, then sets `key` to `value` in the store. */
    method SaveKeyValue(key: string, value: string)
      modifies this, storage
      ensures totalRequest == old(totalRequest) + 1
      ensures storage.data == old(storage.data)[key := value]
      ensures Abstract() == Step(old(Abstract()), Request.SaveKeyValue(key, value)).0
    {
      totalRequest := totalRequest + 1;
      storage.Set(key, value);
    }

    /** Counts the request, then returns a copy of the store's contents. */
    method GetAll() returns (entries: map<string, string>)
      modifies this
      ensures totalRequest == old(totalRequest) + 1
      ensures entries == storage.data
      ensures unchanged(storage)
      ensures (Abstract(), Entries(entries)) == Step(old(Abstract()), Request.GetAll)
    {
      totalRequest := totalRequest + 1;
      entries := storage.GetAll();
    }

    /** Counts the request, then deletes `key` and passes on whether it was present. */
    method DeleteKey(key: string) returns (existed: bool)
      modifies this, storage
      ensures totalRequest == old(totalRequest) + 1
      ensures existed <==> key in old(storage.data)
      ensures storage.data == old(storage.data) - {key}
      ensures (Abstract(), Deleted(existed)) == Step(old(Abstract()), Request.DeleteKey(key))
    {
      totalRequest := totalRequest + 1;
      existed := storage.Delete(key);
    }

    /** Counts the request, then reports the counter (this call included) and the store size. */
    method GetStats() returns (total: nat, size: nat)
      modifies this
      ensures totalRequest == old(totalRequest) + 1
      ensures total == totalRequest && size == |storage.data|
      ensures unchanged(storage)
      ensures (Abstract(), Stats(total, size)) == Step(old(Abstract()), Request.GetStats)
    {
      totalRequest := totalRequest + 1;
      total := totalRequest;
      size := storage.Size();
    }

    /** Reports the counter and the store size without counting. */
    method GetCurrentStats() returns (total: nat, size: nat)
      ensures total == totalRequest
      ensures size == |storage.data|
      ensures Step(Abstract(), Request.GetCurrentStats) == (Abstract(), Stats(total, size))
    {
      total := totalRequest;
      size := storage.Size();
    }
  }

  /**
   A fresh service counts its own GetStats call; each save and each further
   GetStats adds one more, while polling adds nothing.
   */
  method StatsCallsAreCounted() returns (first: (nat, nat), afterSave: (nat, nat), again: (nat, nat), polled: (nat, nat))
    ensures first == (1, 0)
    ensures afterSave == (3, 1)
    ensures again == (4, 1)
    ensures polled == (4, 1)
  {
    var store := new DataStorage();
    var service := new DataService(store);
    var t, n := service.GetStats();
    first := (t, n);
    service.SaveKeyValue("k", "v");
    assert store.data == map["k" := "v"];
    t, n := service.GetStats();
    afterSave := (t, n);
    t, n := service.GetStats();
    again := (t, n);
    t, n := service.GetCurrentStats();
    polled := (t, n);
  }

  /** The map facts the scenario below passes through: deleting "a" from {a:1, b:2} leaves {b:2}. */
  lemma TwoEntriesLessOne()
    ensures "a" in map["a" := "1", "b" := "2"]
    ensures map["a" := "1", "b" := "2"] - {"a"} == map["b" := "2"]
    ensures "a" !in map["b" := "2"] && |map["b" := "2"]| == 1
  {
  }

  /** Two saves, a listing, a delete, another listing, the size and a repeated delete. */
  method SaveListDeleteSequence()
    returns (listed: map<string, string>, deleted: bool, relisted: map<string, string>,
             size: nat, deletedAgain: bool, total: nat)
    ensures listed == map["a" := "1", "b" := "2"]
    ensures deleted
    ensures relisted == map["b" := "2"]
    ensures size == 1
    ensures !deletedAgain
    ensures total == 6
  {
    TwoEntriesLessOne();
    var store := new DataStorage();
    var service := new DataService(store);
    service.SaveKeyValue("a", "1");
    service.SaveKeyValue("b", "2");
    listed := service.GetAll();
    deleted := service.DeleteKey("a");
    relisted := service.GetAll();
    size := store.Size();
    deletedAgain := service.DeleteKey("a");
    total := service.totalRequest;
  }
}
