/** The contents of Redis and PostgreSQL, and what one command does to them. */
module Store {
  import opened Domain

  datatype Store = Store(
    hashes: map<Key, map<Field, Val>>,
    sets: map<Key, set<string>>,
    locks: set<string>,              // message ids whose dedup key exists
    history: map<string, Event>,     // event_history, by event_id
    sessions: map<string, Session>)  // charge_sessions, by session_id

  const EMPTY := Store(map[], map[], {}, map[], map[])

  /** HGETALL: a missing key reads as the empty hash. */
  function Hash(s: Store, k: Key): map<Field, Val> {
    if k in s.hashes then s.hashes[k] else map[]
  }

  /** HGET, None for redis.Nil. */
  function Get(s: Store, k: Key, f: Field): Option<Val> {
    if f in Hash(s, k) then Some(Hash(s, k)[f]) else None
  }

  /** SMEMBERS. */
  function Members(s: Store, k: Key): set<string> {
    if k in s.sets then s.sets[k] else {}
  }

  /** `INSERT INTO event_history ... ON CONFLICT (event_id) DO NOTHING`. */
  function Remember(s: Store, e: Event): Store {
    if e.eventId in s.history then s else s.(history := s.history[e.eventId := e])
  }

  /** `SET dedup:<id> 1 NX`, when the key was absent. */
  function Lock(s: Store, messageId: string): Store {
    s.(locks := s.locks + {messageId})
  }

  /** HSET merges into the hash; SADD adds a member; the session insert ignores a conflict.
      Key lifetimes are kept by the machine, so Expire leaves the contents alone. */
  function Exec(s: Store, c: Cmd): Store {
    match c
    case HSet(k, fields) => s.(hashes := s.hashes[k := Hash(s, k) + fields])
    case SAdd(k, m) => s.(sets := s.sets[k := Members(s, k) + {m}])
    case Expire(_, _) => s
    case Del(k) => s.(hashes := s.hashes - {k})
    case InsertSession(r) =>
      if r.sessionId in s.sessions then s else s.(sessions := s.sessions[r.sessionId := r])
  }

  function ExecAll(s: Store, cs: seq<Cmd>): Store
    decreases |cs|
  {
    if cs == [] then s else ExecAll(Exec(s, cs[0]), cs[1..])
  }

  // ---------------------------------------------------------------- one aspect of a command list

  /** What a list of commands makes of one hash. */
  function HashAfter(h: map<Field, Val>, k: Key, cs: seq<Cmd>): map<Field, Val>
    decreases |cs|
  {
    if cs == [] then h
    else
      HashAfter(if cs[0].HSet? && cs[0].key == k then h + cs[0].fields
                else if cs[0].Del? && cs[0].key == k then map[]
                else h, k, cs[1..])
  }

  /** What it makes of charge_sessions. */
  function SessionsAfter(m: map<string, Session>, cs: seq<Cmd>): map<string, Session>
    decreases |cs|
  {
    if cs == [] then m
    else
      SessionsAfter(if cs[0].InsertSession? && cs[0].row.sessionId !in m then m[cs[0].row.sessionId := cs[0].row]
                    else m, cs[1..])
  }

  lemma {:induction false} ExecAllHash(s: Store, k: Key, cs: seq<Cmd>)
    ensures Hash(ExecAll(s, cs), k) == HashAfter(Hash(s, k), k, cs)
    decreases |cs|
  {
    if cs != [] {
      ExecAllHash(Exec(s, cs[0]), k, cs[1..]);
    }
  }

  lemma {:induction false} ExecAllSessions(s: Store, cs: seq<Cmd>)
    ensures ExecAll(s, cs).sessions == SessionsAfter(s.sessions, cs)
    decreases |cs|
  {
    if cs != [] {
      ExecAllSessions(Exec(s, cs[0]), cs[1..]);
    }
  }

  /** Commands that leave the hash alone can be dropped. */
  predicate Spares(k: Key, cs: seq<Cmd>) {
    forall i :: 0 <= i < |cs| ==> !((cs[i].HSet? || cs[i].Del?) && cs[i].key == k)
  }

  lemma {:induction false} SparedHash(h: map<Field, Val>, k: Key, cs: seq<Cmd>)
    requires Spares(k, cs)
    ensures HashAfter(h, k, cs) == h
    decreases |cs|
  {
    if cs != [] {
      SparedHash(h, k, cs[1..]);
    }
  }

  lemma {:induction false} NoRows(m: map<string, Session>, cs: seq<Cmd>)
    requires forall i :: 0 <= i < |cs| ==> !cs[i].InsertSession?
    ensures SessionsAfter(m, cs) == m
    decreases |cs|
  {
    if cs != [] {
      NoRows(m, cs[1..]);
    }
  }

  lemma {:induction false} HashAfterSplit(h: map<Field, Val>, k: Key, a: seq<Cmd>, b: seq<Cmd>)
    ensures HashAfter(h, k, a + b) == HashAfter(HashAfter(h, k, a), k, b)
    decreases |a|
  {
    if a == [] {
      assert a + b == b;
    } else {
      assert (a + b)[1..] == a[1..] + b;
      HashAfterSplit(if a[0].HSet? && a[0].key == k then h + a[0].fields
                     else if a[0].Del? && a[0].key == k then map[] else h, k, a[1..], b);
    }
  }

  /** The only command of the list that touches the hash. */
  lemma OneTouch(h: map<Field, Val>, k: Key, cs: seq<Cmd>, i: nat)
    requires i < |cs| && Spares(k, cs[..i]) && Spares(k, cs[i + 1..])
    ensures HashAfter(h, k, cs) == if cs[i].HSet? && cs[i].key == k then h + cs[i].fields
                                   else if cs[i].Del? && cs[i].key == k then map[] else h
  {
    assert cs == cs[..i] + cs[i..];
    HashAfterSplit(h, k, cs[..i], cs[i..]);
    SparedHash(h, k, cs[..i]);
    var h' := if cs[i].HSet? && cs[i].key == k then h + cs[i].fields
              else if cs[i].Del? && cs[i].key == k then map[] else h;
    assert cs[i..][1..] == cs[i + 1..];
    SparedHash(h', k, cs[i + 1..]);
  }
}
