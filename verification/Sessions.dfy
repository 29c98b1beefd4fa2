/** The session and media tables of UdpRecv (src/server/udp.rs, src/client/sessions.rs). */
module Sessions {
  import opened Base
  import opened Media

  type User = string

  datatype Session = Session(serverUser: User, clientUser: User)
  datatype Item = Item(groupId: nat, ttl: nat, isSender: bool)

  type SessionTable = map<Session, Item>
  type MediaUsers = map<User, MediaTable>

  /** Both tables together. */
  datatype Tables = Tables(sessions: SessionTable, media: MediaUsers)

  const LIFETIME: nat := 60 * SECOND

  /** Older than a minute; a timestamp in the future has no age and does not expire. */
  predicate Expired(item: Item, now: nat) {
    item.ttl <= now && now - item.ttl > LIFETIME
  }

  /** SessionMessage and MediaUserMessage of one offer, applied as a pair. */
  function Register(t: Tables, session: Session, item: Item, media: MediaTable): Tables {
    Tables(t.sessions[session := item], t.media[session.clientUser := media])
  }

  function ExpiredSessions(sessions: SessionTable, now: nat): set<Session> {
    set s | s in sessions && Expired(sessions[s], now)
  }

  function Users(sessions: set<Session>): set<User> {
    set s | s in sessions :: s.clientUser
  }

  function Sweep(t: Tables, now: nat): Tables {
    var dead := ExpiredSessions(t.sessions, now);
    Tables(t.sessions - dead, t.media - Users(dead))
  }

  class UdpRecv {
    var sessions: SessionTable
    var media: MediaUsers

    function Value(): Tables
      reads this
    {
      Tables(sessions, media)
    }

    constructor ()
      ensures Value() == Tables(map[], map[])
    {
      sessions, media := map[], map[];
    }

    method HandleSession(session: Session, item: Item)
      modifies this
      ensures Value() == Tables(old(sessions)[session := item], old(media))
    {
      sessions := sessions[session := item];
    }

    method HandleMediaUser(user: User, list: MediaTable)
      modifies this
      ensures Value() == Tables(old(sessions), old(media)[user := list])
    {
      media := media[user := list];
    }

    /** Collects the expired sessions, then removes each with its client's media, in whatever
        order the hash map yields them. */
    method HandleClearData(now: nat)
      modifies this
      ensures Value() == Sweep(old(Value()), now)
    {
      var todo := ExpiredSessions(sessions, now);
      ghost var dead := todo;
      while todo != {}
        invariant todo <= dead
        invariant sessions == old(sessions) - (dead - todo)
        invariant media == old(media) - Users(dead - todo)
        decreases |todo|
      {
        var s :| s in todo;
        todo := todo - {s};
        sessions := sessions - {s};
        media := media - {s.clientUser};
        assert Users(dead - todo) == Users(dead - (todo + {s})) + {s.clientUser} by {
          assert dead - todo == (dead - (todo + {s})) + {s};
        }
      }
      assert dead - {} == dead;
    }
  }

  // ---------------------------------------------------------------------
  // The tables stay in step
  // ---------------------------------------------------------------------

  /** The users with media are exactly the client users of the sessions. */
  ghost predicate InStep(t: Tables) {
    t.media.Keys == Users(t.sessions.Keys)
  }

  /** No expired session shares its client user with one that stays. */
  ghost predicate Separated(t: Tables, now: nat) {
    forall dead, kept | dead in t.sessions && kept in t.sessions
      && Expired(t.sessions[dead], now) && !Expired(t.sessions[kept], now) :: dead.clientUser != kept.clientUser
  }

  /** An offer stores its item under the session and its media list under the client's user, over
      whatever was there, and touches nothing else. */
  lemma OfferStores(t: Tables, session: Session, item: Item, media: MediaTable)
    ensures var t' := Step(t, Offer(session, item, media));
            && session in t'.sessions && t'.sessions[session] == item
            && session.clientUser in t'.media && t'.media[session.clientUser] == media
            && (forall s | s != session :: s in t'.sessions <==> s in t.sessions)
            && (forall s <- t.sessions | s != session :: t'.sessions[s] == t.sessions[s])
            && (forall u | u != session.clientUser :: u in t'.media <==> u in t.media)
            && (forall u <- t.media | u != session.clientUser :: t'.media[u] == t.media[u])
  {
  }

  lemma RegisterKeepsStep(t: Tables, session: Session, item: Item, media: MediaTable)
    requires InStep(t)
    ensures InStep(Register(t, session, item, media))
  {
    var t' := Register(t, session, item, media);
    assert t'.sessions.Keys == t.sessions.Keys + {session};
    assert Users(t.sessions.Keys + {session}) == Users(t.sessions.Keys) + {session.clientUser};
  }

  /** Exact condition: a sweep keeps the tables in step if and only if no expired session shares
      its client user with one that stays. */
  lemma SweepKeepsStepIff(t: Tables, now: nat)
    requires InStep(t)
    ensures InStep(Sweep(t, now)) <==> Separated(t, now)
  {
    var t' := Sweep(t, now);
    var dead := ExpiredSessions(t.sessions, now);
    if Separated(t, now) {
      forall u
        ensures u in t'.media.Keys <==> u in Users(t'.sessions.Keys)
      {
        if u in t'.media.Keys {
          var s :| s in t.sessions && s.clientUser == u;
          assert s !in dead && s in t'.sessions;
        }
        if u in Users(t'.sessions.Keys) {
          var s :| s in t'.sessions && s.clientUser == u;
          assert u !in Users(dead);
        }
      }
    }
    if InStep(t') {
      forall s, k | s in dead && k in t.sessions && !Expired(t.sessions[k], now)
        ensures s.clientUser != k.clientUser
      {
        assert k in t'.sessions && k.clientUser in t'.media.Keys;
        assert s.clientUser in Users(dead);
      }
    }
  }

  datatype Event =
    | Offer(session: Session, item: Item, media: MediaTable)
    | Clear(now: nat)

  function Step(t: Tables, e: Event): Tables {
    match e
    case Offer(s, item, media) => Register(t, s, item, media)
    case Clear(now) => Sweep(t, now)
  }

  function Run(es: seq<Event>): Tables {
    if es == [] then Tables(map[], map[]) else Step(Run(es[..|es| - 1]), es[|es| - 1])
  }

  /** A session that a sweep keeps: at most a minute old, or dated in the future. */
  predicate Young(item: Item, now: nat) {
    now <= item.ttl + 60 * SECOND
  }

  /** With the one server user a running server has, every run keeps the tables in step, and a
      sweep removes exactly the sessions older than a minute, with their media, and changes nothing
      about those it keeps. */
  lemma {:induction false} TablesInStep(es: seq<Event>, server: User)
    requires forall i | 0 <= i < |es| && es[i].Offer? :: es[i].session.serverUser == server
    ensures InStep(Run(es)) && forall s <- Run(es).sessions :: s.serverUser == server
    ensures forall now, s | s in Run(es).sessions :: SweptExactly(Run(es), now, s)
  {
    if es != [] {
      var front, e := es[..|es| - 1], es[|es| - 1];
      assert forall i | 0 <= i < |front| && front[i].Offer? :: front[i] == es[i];
      TablesInStep(front, server);
      match e {
        case Offer(s, item, media) => RegisterKeepsStep(Run(front), s, item, media);
        case Clear(now) => SweepKeepsStepIff(Run(front), now);
      }
    }
    forall now
      ensures InStep(Sweep(Run(es), now))
    {
      SweepKeepsStepIff(Run(es), now);
    }
    SweepIsExact(Run(es), server);
  }

  ghost predicate SweptExactly(t: Tables, now: nat, s: Session)
    requires s in t.sessions
  {
    var t' := Sweep(t, now);
    && (s in t'.sessions <==> Young(t.sessions[s], now)) && (s.clientUser in t'.media <==> Young(t.sessions[s], now))
    && (s in t'.sessions ==> t'.sessions[s] == t.sessions[s])
    && (s.clientUser in t'.media && s.clientUser in t.media ==> t'.media[s.clientUser] == t.media[s.clientUser])
  }

  lemma SweepIsExact(t: Tables, server: User)
    requires InStep(t) && forall s <- t.sessions :: s.serverUser == server
    ensures forall now, s | s in t.sessions :: SweptExactly(t, now, s)
  {
    forall now, s | s in t.sessions
      ensures SweptExactly(t, now, s)
    {
      SweepKeepsStepIff(t, now);
      assert s.clientUser in Users(t.sessions.Keys);
      assert s in t.sessions && !Young(t.sessions[s], now) ==> s in ExpiredSessions(t.sessions, now);
    }
  }

  // ---------------------------------------------------------------------
  // What the tables hold
  // ---------------------------------------------------------------------

  /** Offer k is the last one for its session, and no sweep since has found it older than a minute. */
  ghost predicate Current(es: seq<Event>, k: nat, s: Session) {
    && k < |es| && es[k].Offer? && es[k].session == s
    && forall j | k < j < |es| :: Spares(es[j], s, es[k].item)
  }

  predicate Spares(e: Event, s: Session, item: Item) {
    match e
    case Offer(other, _, _) => other != s
    case Clear(now) => Young(item, now)
  }

  /** A session is in the table with an item exactly if its last offer carried that item and no sweep
      since has found it older than a minute. */
  lemma {:induction false} SessionIff(es: seq<Event>, s: Session, item: Item)
    ensures s in Run(es).sessions && Run(es).sessions[s] == item <==>
            exists k: nat :: Current(es, k, s) && es[k].item == item
  {
    if es != [] {
      var n := |es| - 1;
      var front, e := es[..n], es[n];
      SessionIff(front, s, item);
      forall k: nat | k < n
        ensures Current(es, k, s) <==> Current(front, k, s) && Spares(e, s, es[k].item)
      {
        CurrentSnoc(es, k, s);
      }
      if e.Offer? && e.session == s {
        assert Current(es, n, s);
      } else {
        assert forall k: nat :: Current(es, k, s) ==> k < n;
      }
    }
  }

  lemma CurrentSnoc(es: seq<Event>, k: nat, s: Session)
    requires k < |es| - 1
    ensures var n := |es| - 1;
            Current(es, k, s) <==> Current(es[..n], k, s) && Spares(es[n], s, es[k].item)
  {
    var n := |es| - 1;
    assert es[..n][k] == es[k] && forall j | k < j < n :: es[..n][j] == es[j];
    if Current(es[..n], k, s) && Spares(es[n], s, es[k].item) {
      assert forall j | k < j < |es| :: j == n || es[j] == es[..n][j];
    }
  }
}
