/** The MODEL entity store: identity cards, their versions and their WATCHES links. */
module EntityStore {
  import opened Text

  datatype Kind = Service | MonitorRule | OtherKind(name: string)

  /** What the unique index on `(entity_kind, entity_key)` identifies, whatever the status. */
  datatype Ref = Ref(kind: Kind, key: string)

  datatype Status = Active | Retired

  datatype Attributes = NoAttributes | RuleAttributes(
    ruleKind: string, expr: string, sourceFile: string, sourcePagePath: string, group: string,
    hasDescription: bool, severity: Option<string>, pendingFor: Option<string>, runbook: Option<string>)

  type Metadata = map<string, string>

  /** An entity and its outgoing WATCHES links, of which there is one for each target. */
  datatype Card = Card(display: string, attributes: Attributes, status: Status, version: nat, watches: map<Ref, Metadata>)

  type Db = map<Ref, Card>

  /** Names are stored stripped. */
  ghost predicate Stored(db: Db) { forall ref :: ref in db ==> Strip(db[ref].display) == db[ref].display }

  lemma {:induction false} CardStored(db: Db, ref: Ref, c: Card, display: string)
    requires Stored(db) && (c.display == Strip(display) || (ref in db && c.display == db[ref].display))
    ensures Stored(db[ref := c])
  {
    StripTwice(display);
  }

  datatype ApiError = Unreachable | KeyExists | VersionStale | NotFound | SelfLink

  // ---- what each route commits -------------------------------------------------

  function NewCard(display: string, attributes: Attributes): Card {
    Card(Strip(display), attributes, Active, 1, map[])
  }

  function UpdatedCard(c: Card, display: string, attributes: Attributes): Card {
    c.(display := Strip(if display != "" then display else c.display), attributes := attributes, version := c.version + 1)
  }

  function WithStatus(c: Card, status: Status): Card { c.(status := status, version := c.version + 1) }

  /** `ON CONFLICT ... DO UPDATE SET metadata ... WHERE EXCLUDED.metadata <> '{}'`. */
  function Linked(c: Card, to: Ref, metadata: Metadata): Card {
    if to in c.watches && metadata == map[] then c else c.(watches := c.watches[to := metadata])
  }

  function Unlinked(c: Card, to: Ref): Card { c.(watches := c.watches - {to}) }

  /** The table and how many writes were committed to it. */
  datatype State = State(db: Db, writes: nat)

  /** A write is either committed or not, and the caller may never hear which. */
  predicate Writes<T(==)>(was: State, now: State, ref: Ref, c: Card, r: Result<T, ApiError>, answer: T) {
    || (now == State(was.db[ref := c], was.writes + 1) && (r == Ok(answer) || r == Err(Unreachable)))
    || (now == was && r == Err(Unreachable))
  }

  predicate Refuses<T(==)>(was: State, now: State, r: Result<T, ApiError>, error: ApiError) {
    now == was && (r == Err(error) || r == Err(Unreachable))
  }

  /** The routes the importer calls. Any call can fail, before its commit or after it. */
  class Store {
    var state: State

    constructor (db: Db)
      ensures state == State(db, 0)
    {
      state := State(db, 0);
    }

    method Commit(ref: Ref, c: Card) returns (answered: bool)
      modifies this
      ensures Writes(old(state), state, ref, c, if answered then Ok(c) else Err(Unreachable), c)
    {
      if * {
        return false;
      }
      state := State(state.db[ref := c], state.writes + 1);
      answered := *;
    }

    method Create(ref: Ref, display: string, attributes: Attributes) returns (r: Result<Card, ApiError>)
      modifies this
      ensures ref in old(state).db ==> Refuses(old(state), state, r, KeyExists)
      ensures ref !in old(state).db ==> var c := Card(Strip(display), attributes, Active, 1, map[]); Writes(old(state), state, ref, c, r, c)
    {
      if ref in state.db {
        return Err(KeyExists);
      }
      var c := NewCard(display, attributes);
      var answered := Commit(ref, c);
      r := if answered then Ok(c) else Err(Unreachable);
    }

    method Update(ref: Ref, expected: nat, display: string, attributes: Attributes) returns (r: Result<Card, ApiError>)
      modifies this
      ensures ref !in old(state).db ==> Refuses(old(state), state, r, NotFound)
      ensures ref in old(state).db && old(state).db[ref].version != expected ==> Refuses(old(state), state, r, VersionStale)
      ensures ref in old(state).db && old(state).db[ref].version == expected ==>
                var c := old(state).db[ref];
                var d := Card(if display == "" then Strip(c.display) else Strip(display), attributes, c.status, c.version + 1, c.watches);
                Writes(old(state), state, ref, d, r, d)
    {
      if ref !in state.db {
        return Err(NotFound);
      }
      if state.db[ref].version != expected {
        return Err(VersionStale);
      }
      var c := UpdatedCard(state.db[ref], display, attributes);
      var answered := Commit(ref, c);
      r := if answered then Ok(c) else Err(Unreachable);
    }

    /** `retire` and `reactivate`: no write when the card has the status already. */
    method SetStatus(ref: Ref, expected: nat, status: Status) returns (r: Result<Card, ApiError>)
      modifies this
      ensures ref !in old(state).db ==> Refuses(old(state), state, r, NotFound)
      ensures ref in old(state).db && old(state).db[ref].version != expected ==> Refuses(old(state), state, r, VersionStale)
      ensures ref in old(state).db && old(state).db[ref].version == expected && old(state).db[ref].status == status ==>
                state == old(state) && (r == Ok(old(state).db[ref]) || r == Err(Unreachable))
      ensures ref in old(state).db && old(state).db[ref].version == expected && old(state).db[ref].status != status ==>
                var c := old(state).db[ref];
                var d := Card(c.display, c.attributes, status, c.version + 1, c.watches);
                Writes(old(state), state, ref, d, r, d)
    {
      if ref !in state.db {
        return Err(NotFound);
      }
      if state.db[ref].version != expected {
        return Err(VersionStale);
      }
      if state.db[ref].status == status {
        return Ok(state.db[ref]);
      }
      var c := WithStatus(state.db[ref], status);
      var answered := Commit(ref, c);
      r := if answered then Ok(c) else Err(Unreachable);
    }

    method Link(from: Ref, to: Ref, metadata: Metadata) returns (r: Result<(), ApiError>)
      modifies this
      ensures from == to ==> Refuses(old(state), state, r, SelfLink)
      ensures from != to && (from !in old(state).db || to !in old(state).db) ==> Refuses(old(state), state, r, NotFound)
      ensures from != to && from in old(state).db && to in old(state).db ==>
                var c := old(state).db[from];
                var links := if metadata == map[] && to in c.watches then c.watches else c.watches[to := metadata];
                Writes(old(state), state, from, Card(c.display, c.attributes, c.status, c.version, links), r, ())
    {
      if from == to {
        return Err(SelfLink);
      }
      if from !in state.db || to !in state.db {
        return Err(NotFound);
      }
      var answered := Commit(from, Linked(state.db[from], to, metadata));
      r := if answered then Ok(()) else Err(Unreachable);
    }

    method Unlink(from: Ref, to: Ref) returns (r: Result<(), ApiError>)
      modifies this
      ensures from !in old(state).db ==> Refuses(old(state), state, r, NotFound)
      ensures from in old(state).db ==>
                var c := old(state).db[from];
                Writes(old(state), state, from, Card(c.display, c.attributes, c.status, c.version, c.watches - {to}), r, ())
    {
      if from !in state.db {
        return Err(NotFound);
      }
      var answered := Commit(from, Unlinked(state.db[from], to));
      r := if answered then Ok(()) else Err(Unreachable);
    }

    /** `GET /entities/{id}`: the outgoing WATCHES links. */
    method Watches(ref: Ref) returns (r: Result<map<Ref, Metadata>, ApiError>)
      ensures ref !in state.db ==> r == Err(NotFound) || r == Err(Unreachable)
      ensures ref in state.db ==> r == Ok(state.db[ref].watches) || r == Err(Unreachable)
    {
      if * {
        return Err(Unreachable);
      }
      r := if ref in state.db then Ok(state.db[ref].watches) else Err(NotFound);
    }

    /** `GET /entities?entity_kind=SERVICE`: the active ones. */
    method ActiveServices() returns (r: Result<set<Ref>, ApiError>)
      ensures r == Ok(ServicesIn(state.db)) || r == Err(Unreachable)
    {
      if * {
        return Err(Unreachable);
      }
      r := Ok(ServicesIn(state.db));
    }

    /** `GET /entities?entity_kind=MONITOR_RULE&status=all`. */
    method AllRules() returns (r: Result<map<Ref, Card>, ApiError>)
      ensures r == Ok(RulesIn(state.db)) || r == Err(Unreachable)
    {
      if * {
        return Err(Unreachable);
      }
      r := Ok(RulesIn(state.db));
    }
  }

  function ServicesIn(db: Db): set<Ref> {
    set ref | ref in db && ref.kind == Service && db[ref].status.Active?
  }

  function RulesIn(db: Db): map<Ref, Card> { map ref | ref in db && ref.kind == MonitorRule :: db[ref] }
}
