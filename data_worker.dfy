/** The verse cache worker: a message-driven state machine over a keyed verse store
    (the browser's IndexedDB object store `verses`, keyed by `verse_id`, with a unique
    index on `citation`). `init` opens the store and fills it from the verse file only
    when it is empty; `query` answers one verse. Every reply is a message appended to
    the outbox, the worker's `postMessage` stream. */
module DataWorker {
  import opened Wrappers
  import opened Text

  datatype Record = Record(verseId: int, citation: string, text: string)

  /** A message the worker posts: `{status, message}` or `{status: 'queryResult', result}`. */
  datatype Message = Info(text: string) | Ready(text: string) | Error(text: string)
                   | QueryResult(result: Option<Record>)

  /** What opening the database gives: the handle, or the failure's message. */
  datatype OpenOutcome = Opened | OpenFailed(reason: string)

  /** What fetching the verse file gives: a network failure's message, or a response
      with its status and decoded body. */
  datatype FetchOutcome = NetworkError(reason: string) | Response(status: int, body: seq<Record>)

  /** A message to the worker; any other command name is `Other`. */
  datatype Command = Init(open: OpenOutcome, fetch: FetchOutcome) | Query(verseId: int) | Other(name: string)

  /** `response.ok`: a status in the range 200-299. */
  predicate Ok(status: int) { 200 <= status <= 299 }

  /** The text of the error a failed write transaction rejects with (the browser's own
      wording for a constraint violation is not part of this model). */
  const ConstraintFailure: string := "ConstraintError"

  // The fixed messages of the worker and the prefixes of its error messages.
  const Initializing := Info("Initializing data store...")
  const Checking := Info("Checking for existing data...")
  const AlreadyPopulated := Info("Data already exists. Skipping population.")
  const Fetching := Info("Fetching data to populate the store...")
  const Populating := Info("Data fetched. Populating data store...")
  const Populated := Info("Data store populated successfully.")
  const StoreReady := Ready("Data store is ready.")
  const NotInitialized := Error("Database is not initialized.")
  const PopulateFailed: string := "Failed to populate data: "
  const SetupFailed: string := "Database setup failed: "

  /** The store keeps every record under its own id and the citation index is unique. */
  ghost predicate StoreValid(store: map<int, Record>) {
    && (forall k :: k in store ==> store[k].verseId == k)
    && (forall k, l :: k in store && l in store && k != l ==> store[k].citation != store[l].citation)
  }

  predicate CitationTaken(store: map<int, Record>, citation: string) {
    exists k :: k in store && store[k].citation == citation
  }

  /** One write transaction that `add`s `verses` in order to `store`: all of them, or,
      when one would repeat a key or a citation, none (the transaction aborts). */
  function AddAll(store: map<int, Record>, verses: seq<Record>): Option<map<int, Record>>
    decreases |verses|
  {
    if verses == [] then Some(store)
    else if verses[0].verseId in store || CitationTaken(store, verses[0].citation) then None
    else AddAll(store[verses[0].verseId := verses[0]], verses[1..])
  }

  predicate DistinctIds(verses: seq<Record>) {
    forall i, j :: 0 <= i < j < |verses| ==> verses[i].verseId != verses[j].verseId
  }

  predicate DistinctCitations(verses: seq<Record>) {
    forall i, j :: 0 <= i < j < |verses| ==> verses[i].citation != verses[j].citation
  }

  /** The ids of a list of records. */
  function Ids(verses: seq<Record>): (ids: set<int>)
    ensures forall i :: 0 <= i < |verses| ==> verses[i].verseId in ids
    ensures forall x :: x in ids ==> exists i :: 0 <= i < |verses| && verses[i].verseId == x
  {
    if verses == [] then {}
    else
      var rest := Ids(verses[1..]);
      assert forall x :: x in rest ==> exists i :: 1 <= i < |verses| && verses[i].verseId == x by {
        forall x | x in rest
          ensures exists i :: 1 <= i < |verses| && verses[i].verseId == x
        {
          var i :| 0 <= i < |verses[1..]| && verses[1..][i].verseId == x;
          assert verses[i + 1].verseId == x;
        }
      }
      {verses[0].verseId} + rest
  }

  /** When a write transaction may commit: the new ids and citations are distinct and
      not yet in the store. */
  predicate Commits(store: map<int, Record>, verses: seq<Record>) {
    && DistinctIds(verses) && DistinctCitations(verses)
    && (forall i :: 0 <= i < |verses| ==> verses[i].verseId !in store)
    && (forall i :: 0 <= i < |verses| ==> !CitationTaken(store, verses[i].citation))
  }

  /** Adding the first record moves the commit condition one step down the list. */
  lemma CommitsStep(store: map<int, Record>, verses: seq<Record>)
    requires verses != []
    ensures Commits(store, verses) <==>
              && verses[0].verseId !in store && !CitationTaken(store, verses[0].citation)
              && Commits(store[verses[0].verseId := verses[0]], verses[1..])
  {
    var v := verses[0];
    var rest := verses[1..];
    var next := store[v.verseId := v];
    assert forall i :: 0 <= i < |rest| ==> rest[i] == verses[i + 1];
    if v.verseId !in store {
      forall i | 0 <= i < |rest|
        ensures !CitationTaken(next, rest[i].citation)
                <==> !CitationTaken(store, rest[i].citation) && rest[i].citation != v.citation
      {
        if CitationTaken(next, rest[i].citation) && rest[i].citation != v.citation {
          var k :| k in next && next[k].citation == rest[i].citation;
          assert k in store && store[k].citation == rest[i].citation;
        }
        if CitationTaken(store, rest[i].citation) {
          var k :| k in store && store[k].citation == rest[i].citation;
          assert k in next && next[k].citation == rest[i].citation;
        }
        if rest[i].citation == v.citation {
          assert next[v.verseId].citation == rest[i].citation;
        }
      }
    }
    if !CitationTaken(store, v.citation) && v.verseId !in store && Commits(next, rest) {
      assert forall i :: 0 <= i < |rest| ==> rest[i].citation != v.citation;
      assert forall i :: 0 <= i < |rest| ==> rest[i].verseId != v.verseId;
    }
  }

  /** The transaction commits exactly when `Commits` holds. */
  lemma {:induction false} AddAllCommits(store: map<int, Record>, verses: seq<Record>)
    ensures AddAll(store, verses).Some? <==> Commits(store, verses)
    decreases |verses|
  {
    if verses != [] {
      CommitsStep(store, verses);
      AddAllCommits(store[verses[0].verseId := verses[0]], verses[1..]);
    }
  }

  /** A committed transaction keeps the old records and holds every new record under
      its own id, and nothing else. */
  lemma {:induction false} AddAllContents(store: map<int, Record>, verses: seq<Record>)
    requires AddAll(store, verses).Some?
    ensures var s := AddAll(store, verses).value;
            && s.Keys == store.Keys + Ids(verses)
            && (forall k :: k in store ==> s[k] == store[k])
            && (forall i :: 0 <= i < |verses| ==> s[verses[i].verseId] == verses[i])
    decreases |verses|
  {
    if verses != [] {
      var v := verses[0];
      var next := store[v.verseId := v];
      var rest := verses[1..];
      AddAllContents(next, rest);
      assert AddAll(store, verses) == AddAll(next, rest);
      var s := AddAll(next, rest).value;
      assert Ids(verses) == {v.verseId} + Ids(rest);
      forall i | 0 <= i < |verses|
        ensures s[verses[i].verseId] == verses[i]
      {
        if i > 0 {
          assert verses[i] == rest[i - 1];
        }
      }
    }
  }

  /** The outcome of `init`: the messages posted, in order, whether the handle is now
      assigned, and the store afterwards. */
  datatype InitOutcome = InitOutcome(posted: seq<Message>, hasDb: bool, store: map<int, Record>)

  /** `populateDB`: count the records; fill the store only when it is empty. */
  function Populate(store: map<int, Record>, fetch: FetchOutcome): (r: (seq<Message>, map<int, Record>)) {
    var check := [Checking];
    if |store| > 0 then (check + [AlreadyPopulated], store)
    else
      var (msgs, s) := Fill(store, fetch);
      (check + [Fetching] + msgs, s)
  }

  /** The filling part of `populateDB`: a failed fetch, a status that is not ok or an
      aborted write posts an error, which `populateDB` swallows. */
  function Fill(store: map<int, Record>, fetch: FetchOutcome): (r: (seq<Message>, map<int, Record>)) {
    match fetch
    case NetworkError(reason) => ([Error(PopulateFailed + reason)], store)
    case Response(status, body) =>
      if !Ok(status) then
        ([Error("Failed to populate data: HTTP error! status: " + IntToString(status))], store)
      else
        var populating := [Populating];
        match AddAll(store, body)
        case Some(s) => (populating + [Populated], s)
        case None => (populating + [Error(PopulateFailed + ConstraintFailure)], store)
  }

  /** The `init` handler: announce, open the store (a failure ends it with "Database
      setup failed" and no `ready`), populate it, then post `ready`. */
  function InitSpec(hasDb: bool, store: map<int, Record>, open: OpenOutcome, fetch: FetchOutcome): InitOutcome {
    var start := [Initializing];
    match open
    case OpenFailed(reason) => InitOutcome(start + [Error(SetupFailed + reason)], hasDb, store)
    case Opened =>
      var (msgs, s) := Populate(store, fetch);
      InitOutcome(start + msgs + [StoreReady], true, s)
  }

  /** The `query` handler's reply. */
  function QuerySpec(hasDb: bool, store: map<int, Record>, verseId: int): (m: Message)
    ensures !hasDb <==> m == NotInitialized
    ensures hasDb ==> m.QueryResult? && (m.result.Some? <==> verseId in store)
    ensures hasDb && verseId in store ==> m.result.value == store[verseId]
  {
    if !hasDb then NotInitialized
    else QueryResult(if verseId in store then Some(store[verseId]) else None)
  }

  class Worker {
    var hasDb: bool                // the module-level `db` handle has been assigned
    var store: map<int, Record>     // the contents of the `verses` object store
    var outbox: seq<Message>        // everything posted so far, in order

    ghost predicate Valid()
      reads this
    {
      StoreValid(store)
    }

    /** A fresh worker over what the browser has kept of the store from earlier visits. */
    constructor (persisted: map<int, Record>)
      requires StoreValid(persisted)
      ensures Valid()
      ensures !hasDb && store == persisted && outbox == []
    {
      hasDb := false;
      store := persisted;
      outbox := [];
    }

    method Post(m: Message)
      modifies this
      ensures outbox == old(outbox) + [m]
      ensures hasDb == old(hasDb) && store == old(store)
    {
      outbox := outbox + [m];
    }

    /** The `add` loop of one write transaction: stage the records one at a time and
      commit the staged store only when every `add` succeeded. */
    method AddVerses(verses: seq<Record>) returns (ok: bool)
      modifies this
      ensures ok <==> AddAll(old(store), verses).Some?
      ensures store == AddAll(old(store), verses).GetOr(old(store))
      ensures hasDb == old(hasDb) && outbox == old(outbox)
    {
      var staged := store;
      var i := 0;
      while i < |verses|
        invariant 0 <= i <= |verses|
        invariant AddAll(store, verses) == AddAll(staged, verses[i..])
      {
        var v := verses[i];
        if v.verseId in staged || CitationTaken(staged, v.citation) {
          return false;
        }
        assert verses[i..][1..] == verses[i + 1..];
        staged := staged[v.verseId := v];
        i := i + 1;
      }
      store := staged;
      return true;
    }

    /** `populateDB`. */
    method PopulateStore(fetch: FetchOutcome)
      modifies this
      ensures outbox == old(outbox) + Populate(old(store), fetch).0
      ensures store == Populate(old(store), fetch).1
      ensures hasDb == old(hasDb)
    {
      Post(Checking);
      if |store| > 0 {
        Post(AlreadyPopulated);
        return;
      }
      Post(Fetching);
      FillStore(fetch);
    }

    /** The fetch and the write transaction of `populateDB`. */
    method FillStore(fetch: FetchOutcome)
      modifies this
      ensures outbox == old(outbox) + Fill(old(store), fetch).0
      ensures store == Fill(old(store), fetch).1
      ensures hasDb == old(hasDb)
    {
      match fetch
      case NetworkError(reason) =>
        Post(Error(PopulateFailed + reason));
      case Response(status, body) =>
        if !Ok(status) {
          Post(Error("Failed to populate data: HTTP error! status: " + IntToString(status)));
        } else {
          Post(Populating);
          var ok := AddVerses(body);
          if ok {
            Post(Populated);
          } else {
            Post(Error(PopulateFailed + ConstraintFailure));
          }
        }
    }

    /** The `onmessage` handler. */
    method OnMessage(cmd: Command)
      requires Valid()
      modifies this
      ensures Valid()
      ensures cmd.Init? ==>
                var r := InitSpec(old(hasDb), old(store), cmd.open, cmd.fetch);
                outbox == old(outbox) + r.posted && hasDb == r.hasDb && store == r.store
      ensures cmd.Query? ==>
                outbox == old(outbox) + [QuerySpec(old(hasDb), old(store), cmd.verseId)]
                && hasDb == old(hasDb) && store == old(store)
      ensures cmd.Other? ==> outbox == old(outbox) && hasDb == old(hasDb) && store == old(store)
    {
      match cmd
      case Init(open, fetch) =>
        Initialize(open, fetch);
      case Query(verseId) =>
        Post(QuerySpec(hasDb, store, verseId));
      case Other(_) =>
    }

    /** The `init` command: open the store, populate it, and report ready. */
    method Initialize(open: OpenOutcome, fetch: FetchOutcome)
      requires Valid()
      modifies this
      ensures Valid()
      ensures var r := InitSpec(old(hasDb), old(store), open, fetch);
              outbox == old(outbox) + r.posted && hasDb == r.hasDb && store == r.store
    {
      Post(Initializing);
      match open {
        case OpenFailed(reason) =>
          Post(Error(SetupFailed + reason));
        case Opened =>
          hasDb := true;
          ghost var before := store;
          PopulateStore(fetch);
          PopulateKeepsValid(before, fetch);
          Post(StoreReady);
          InitOpened(old(hasDb), before, fetch);
      }
    }
  }

  lemma PopulateKeepsValid(store: map<int, Record>, fetch: FetchOutcome)
    requires StoreValid(store)
    ensures StoreValid(Populate(store, fetch).1)
  {
    if |store| == 0 && fetch.Response? && Ok(fetch.status) && AddAll(store, fetch.body).Some? {
      assert store == map[];
      FilledStoreValid(fetch.body);
    }
  }

  /** A transaction that commits on an empty store leaves a valid store. */
  lemma FilledStoreValid(body: seq<Record>)
    requires AddAll(map[], body).Some?
    ensures StoreValid(AddAll(map[], body).value)
  {
    var empty: map<int, Record> := map[];
    AddAllCommits(empty, body);
    AddAllContents(empty, body);
    var s := AddAll(empty, body).value;
    forall k | k in s
      ensures s[k].verseId == k
    {
      var i :| 0 <= i < |body| && body[i].verseId == k;
    }
    forall k, l | k in s && l in s && k != l
      ensures s[k].citation != s[l].citation
    {
      var i :| 0 <= i < |body| && body[i].verseId == k;
      var j :| 0 <= j < |body| && body[j].verseId == l;
      assert i != j;
    }
  }

  /** The shape of an `init` whose store opens: the announcement, `populateDB`'s
      messages, then `ready`. */
  lemma InitOpened(hasDb: bool, store: map<int, Record>, fetch: FetchOutcome)
    ensures InitSpec(hasDb, store, Opened, fetch)
            == InitOutcome([Initializing] + Populate(store, fetch).0
                           + [StoreReady], true, Populate(store, fetch).1)
  {
  }

  /** `populateDB` never posts `ready`, and posts at least two messages. */
  lemma PopulateNotReady(store: map<int, Record>, fetch: FetchOutcome)
    ensures |Populate(store, fetch).0| >= 2
    ensures forall i :: 0 <= i < |Populate(store, fetch).0| ==> !Populate(store, fetch).0[i].Ready?
  {
  }

  /** The order of an `init`: "Initializing..." first; when the store opens, `ready` is
      last and posted once, after every populate message; when it does not open, the
      setup error is last and nothing is ready. */
  lemma InitOrder(hasDb: bool, store: map<int, Record>, open: OpenOutcome, fetch: FetchOutcome)
    ensures var p := InitSpec(hasDb, store, open, fetch).posted;
            && |p| >= 2 && p[0] == Initializing
            && (open.Opened? ==> p[|p| - 1] == StoreReady
                                 && forall i :: 0 <= i < |p| - 1 ==> !p[i].Ready?)
            && (open.OpenFailed? ==> p == [Initializing,
                                           Error(SetupFailed + open.reason)])
  {
    if open.Opened? {
      InitOpened(hasDb, store, fetch);
      PopulateNotReady(store, fetch);
      var msgs := Populate(store, fetch).0;
      var p := InitSpec(hasDb, store, open, fetch).posted;
      forall i | 0 <= i < |p| - 1
        ensures !p[i].Ready?
      {
        if i > 0 {
          assert p[i] == msgs[i - 1];
        }
      }
    }
  }

  /** A store that already holds records is left alone: no fetch result matters, nothing
      is added, and a second `init` after a successful one changes nothing. */
  lemma InitIdempotent(hasDb: bool, store: map<int, Record>, fetch: FetchOutcome, fetch2: FetchOutcome)
    requires |store| > 0
    ensures InitSpec(hasDb, store, Opened, fetch).store == store
    ensures InitSpec(hasDb, store, Opened, fetch) == InitSpec(hasDb, store, Opened, fetch2)
    ensures InitSpec(hasDb, store, Opened, fetch).posted
            == [Initializing, Checking,
                AlreadyPopulated, StoreReady]
  {
  }

  /** A failed fetch or a status that is not ok posts an error and still ends with
      `ready`, over a store that stays empty. */
  lemma FetchFailureStillReady(hasDb: bool, store: map<int, Record>, fetch: FetchOutcome)
    requires |store| == 0
    requires fetch.NetworkError? || !Ok(fetch.status)
    ensures var r := InitSpec(hasDb, store, Opened, fetch);
            && r.store == store && r.hasDb
            && |r.posted| == 5 && r.posted[3].Error? && r.posted[4].Ready?
  {
  }

  /** An `init` that fills an empty store from a file with distinct ids and citations,
      followed by a `query`, answers every verse of the file, and nothing else. */
  lemma InitThenQuery(hasDb: bool, body: seq<Record>, status: int, verseId: int)
    requires Ok(status) && DistinctIds(body) && DistinctCitations(body)
    ensures var r := InitSpec(hasDb, map[], Opened, Response(status, body));
            var m := QuerySpec(r.hasDb, r.store, verseId);
            && r.posted[|r.posted| - 2] == Populated
            && (forall i :: 0 <= i < |body| && body[i].verseId == verseId ==> m == QueryResult(Some(body[i])))
            && ((forall i :: 0 <= i < |body| ==> body[i].verseId != verseId) ==> m == QueryResult(None))
  {
    FillEmpty(body);
    InitOpened(hasDb, map[], Response(status, body));
  }

  /** Records with distinct ids and citations fill an empty store: exactly their ids,
      each with its record. */
  lemma FillEmpty(body: seq<Record>)
    requires DistinctIds(body) && DistinctCitations(body)
    ensures AddAll(map[], body).Some?
    ensures AddAll(map[], body).value.Keys == Ids(body)
    ensures forall i :: 0 <= i < |body| ==> AddAll(map[], body).value[body[i].verseId] == body[i]
  {
    var empty: map<int, Record> := map[];
    assert forall i :: 0 <= i < |body| ==> !CitationTaken(empty, body[i].citation);
    AddAllCommits(empty, body);
    AddAllContents(empty, body);
  }

  /** A `query` before any `init` gets the not-initialized error and no result. */
  lemma QueryBeforeInit(store: map<int, Record>, verseId: int)
    ensures QuerySpec(false, store, verseId) == NotInitialized
  {
  }
}
