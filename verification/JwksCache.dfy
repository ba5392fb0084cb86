/**
 * The SDK's key cache against the server whose keys it caches. A fetch reads the
 * published set at one instant.
 */
module JwksCache {
  import opened Common
  import opened JwkCodec
  import opened KeyRing

  type Keys = map<string, PublicKey>

  // The entries that decode, later ones replacing earlier ones of the same kid.
  function KeysOf(doc: seq<Jwk>): Keys
  {
    if doc == [] then map[]
    else
      var k := doc[|doc| - 1];
      match Decoded(k)
      case None => KeysOf(doc[..|doc| - 1])
      case Some(p) => KeysOf(doc[..|doc| - 1])[k.kid := p]
  }

  predicate Undecodable(doc: seq<Jwk>)
  {
    forall i :: 0 <= i < |doc| ==> Decoded(doc[i]).None?
  }

  // Entry i decodes and no later one of its kid does.
  predicate LastOfItsKid(doc: seq<Jwk>, i: nat)
    requires i < |doc|
  {
    Decoded(doc[i]).Some? && forall j :: i < j < |doc| && doc[j].kid == doc[i].kid ==> Decoded(doc[j]).None?
  }

  lemma {:induction false} LastEntryWins(doc: seq<Jwk>, i: nat)
    requires i < |doc| && LastOfItsKid(doc, i)
    ensures doc[i].kid in KeysOf(doc) && KeysOf(doc)[doc[i].kid] == Decoded(doc[i]).value
  {
    var init := doc[..|doc| - 1];
    if i < |init| {
      assert init[i] == doc[i];
      LastEntryWins(init, i);
    }
  }

  lemma {:induction false} KeyHasEntry(doc: seq<Jwk>, kid: string) returns (i: nat)
    requires kid in KeysOf(doc)
    ensures i < |doc| && doc[i].kid == kid && LastOfItsKid(doc, i) && Decoded(doc[i]) == Some(KeysOf(doc)[kid])
  {
    var n := |doc| - 1;
    if doc[n].kid == kid && Decoded(doc[n]).Some? {
      i := n;
    } else {
      i := KeyHasEntry(doc[..n], kid);
    }
  }

  lemma {:induction false} UndecodableIff(doc: seq<Jwk>)
    ensures Undecodable(doc) <==> KeysOf(doc) == map[]
  {
    if doc != [] {
      var init := doc[..|doc| - 1];
      UndecodableIff(init);
      if Decoded(doc[|doc| - 1]).Some? {
        assert doc[|doc| - 1].kid in KeysOf(doc);
      } else {
        assert forall i :: 0 <= i < |init| ==> init[i] == doc[i];
      }
    }
  }

  // `fetchedAt` is None until the first fetch.
  datatype Cache = Cache(keys: Keys, fetchedAt: Option<Time>)

  const EMPTY := Cache(map[], None)

  predicate Stale(c: Cache, ttl: nat, now: Time)
  {
    c.keys == map[] || c.fetchedAt.None? || now - c.fetchedAt.value > ttl
  }

  predicate NeedsFetch(c: Cache, ttl: nat, kid: string, now: Time)
  {
    Stale(c, ttl, now) || kid !in c.keys
  }

  // A document without a usable key is an error and keeps the cache; None is an unreachable server.
  function Refreshed(c: Cache, doc: Option<seq<Jwk>>, now: Time): Cache
  {
    if doc.None? || KeysOf(doc.value) == map[] then c else Cache(KeysOf(doc.value), Some(now))
  }

  function Queried(c: Cache, ttl: nat, kid: string, doc: Option<seq<Jwk>>, now: Time): Cache
  {
    if NeedsFetch(c, ttl, kid, now) then Refreshed(c, doc, now) else c
  }

  // The keys a query may be answered with; without a kid any cached key will do.
  predicate Answer(c: Cache, ttl: nat, kid: string, doc: Option<seq<Jwk>>, now: Time, p: PublicKey)
  {
    var c' := Queried(c, ttl, kid, doc, now);
    if kid in c'.keys then p == c'.keys[kid]
    else kid == "" && doc.Some? && KeysOf(doc.value) != map[] && p in c'.keys.Values
  }

  class Verifier {
    var keys: Keys
    var fetchedAt: Option<Time>
    const cacheTtl: nat

    constructor (cacheTtl: nat)
      ensures this.cacheTtl == cacheTtl && View() == EMPTY
    {
      this.cacheTtl := cacheTtl;
      keys, fetchedAt := map[], None;
    }

    function View(): Cache
      reads this
    {
      Cache(keys, fetchedAt)
    }

    method Refresh(doc: Option<seq<Jwk>>, now: Time) returns (ok: bool)
      modifies this
      ensures ok <==> doc.Some? && !Undecodable(doc.value)
      ensures !ok ==> keys == old(keys) && fetchedAt == old(fetchedAt)
      ensures ok ==> keys == KeysOf(doc.value) && fetchedAt == Some(now)
      ensures View() == Refreshed(old(View()), doc, now)
    {
      if doc.None? {
        return false;
      }
      UndecodableIff(doc.value);
      var next: Keys := map[];
      for i := 0 to |doc.value|
        invariant next == KeysOf(doc.value[..i])
        invariant View() == old(View())
      {
        assert doc.value[..i + 1][..i] == doc.value[..i];
        var pub := JwkToRSA(doc.value[i]);
        if pub.Ok? {
          next := next[doc.value[i].kid := pub.value];
        }
      }
      assert doc.value[..|doc.value|] == doc.value;
      if next == map[] {
        return false;
      }
      keys, fetchedAt := next, Some(now);
      ok := true;
    }

    method KeyFor(kid: string, doc: Option<seq<Jwk>>, now: Time) returns (r: Result<PublicKey>)
      modifies this
      // A cached kid of a cache still in date is answered from it.
      ensures kid in old(keys) && old(fetchedAt).Some? && now - old(fetchedAt).value <= cacheTtl ==>
                keys == old(keys) && fetchedAt == old(fetchedAt) && r == Ok(old(keys)[kid])
      // An outage, or a document of no use, keeps the cache and what it can answer.
      ensures doc.None? || Undecodable(doc.value) ==>
                keys == old(keys) && fetchedAt == old(fetchedAt) &&
                r == if kid in old(keys) then Ok(old(keys)[kid]) else Err(InvalidCred)
      // Otherwise the document replaces the cache; without a kid any of its keys will do.
      ensures !(kid in old(keys) && old(fetchedAt).Some? && now - old(fetchedAt).value <= cacheTtl) &&
              doc.Some? && !Undecodable(doc.value) ==>
                && keys == KeysOf(doc.value) && fetchedAt == Some(now)
                && (kid in keys ==> r == Ok(keys[kid]))
                && (kid !in keys && kid != "" ==> r == Err(InvalidCred))
                && (kid !in keys && kid == "" ==> r.Ok? && r.value in keys.Values)
      ensures View() == Queried(old(View()), cacheTtl, kid, doc, now)
      ensures r.Ok? ==> Answer(old(View()), cacheTtl, kid, doc, now, r.value)
      ensures r.Err? ==> forall p :: !Answer(old(View()), cacheTtl, kid, doc, now, p)
    {
      if doc.Some? {
        UndecodableIff(doc.value);
      }
      var need := keys == map[] || fetchedAt.None? || now - fetchedAt.value > cacheTtl;
      var pub := Lookup(keys, kid);
      if need || pub.None? {
        var ok := Refresh(doc, now);
        if !ok && pub.None? {
          return Err(InvalidCred);
        }
        pub := Lookup(keys, kid);
        if pub.None? && kid == "" {
          var any :| any in keys;
          pub := Some(keys[any]);
        }
      }
      if pub.None? {
        return Err(InvalidCred);
      }
      r := Ok(pub.value);
    }
  }

  // ---------------------------------------------------------------- cache and server together

  // What the server publishes now, as a map.
  function Serving(ring: Ring): Keys
  {
    (if ring.prevPublic.Some? then map[ring.prevKid := ring.prevPublic.value] else map[]) +
    (if ring.current.Some? then map[ring.kid := ring.current.value.pub] else map[])
  }

  lemma DocumentDecodes(ring: Ring)
    requires Sound(ring) && Publishable(ring)
    ensures KeysOf(Published(ring)) == Serving(ring)
  {
    if ring.current.Some? {
      var cur := JwkFromPublic(ring.current.value.pub, ring.kid);
      PublishRoundTripIff(ring.current.value.pub, ring.kid);
      assert [cur][..0] == [];
      assert KeysOf([cur]) == map[ring.kid := ring.current.value.pub];
      if ring.prevPublic.Some? {
        var prev := JwkFromPublic(ring.prevPublic.value, ring.prevKid);
        PublishRoundTripIff(ring.prevPublic.value, ring.prevKid);
        assert [cur, prev][..1] == [cur];
        assert Published(ring) == [cur, prev];
        assert KeysOf([cur, prev]) == KeysOf([cur])[ring.prevKid := ring.prevPublic.value];
      } else {
        assert Published(ring) == [cur];
      }
    }
  }

  // The key a kid was last published with, and when it got that key: in event order, and on
  // the clock.
  datatype Binding = Binding(key: PublicKey, event: nat, at: Time)

  // All but the first three are history: the number of events so far, the event of the last
  // fetch, each kid's latest binding, when each pair of kid and key was taken down, and every
  // key generated so far.
  datatype State = State(now: Time, ring: Ring, cache: Cache,
                         events: nat, fetch: nat, bound: map<string, Binding>, gone: map<(string, PublicKey), Time>,
                         used: set<PublicKey>)

  datatype Event =
    | Tick(delta: nat)
    | RotateTo(key: PrivateKey, kid: string)
    | Retire
    | Query(kid: string, up: bool)  // `up` says that the server can be reached

  // The bindings once `keys` is served: a kid keeps its binding as long as it keeps its key.
  function Rebound(bound: map<string, Binding>, keys: Keys, events: nat, now: Time): map<string, Binding>
  {
    bound + map k | k in keys && !(k in bound && bound[k].key == keys[k]) :: Binding(keys[k], events, now)
  }

  predicate Serves(keys: Keys, kid: string, p: PublicKey)
  {
    kid in keys && keys[kid] == p
  }

  function Start(key: PrivateKey, kid: string): State
  {
    var ring := NewRing(key, kid);
    State(0, ring, EMPTY, 1, 0, Rebound(map[], Serving(ring), 0, 0), map[], {key.pub})
  }

  function Moved(s: State, ring: Ring): State
  {
    s.(ring := ring, bound := Rebound(s.bound, Serving(ring), s.events, s.now),
       gone := s.gone + map k | k in Serving(s.ring) && !Serves(Serving(ring), k, Serving(s.ring)[k])
                          :: (k, Serving(s.ring)[k]) := s.now)
  }

  function Document(s: State, up: bool): Option<seq<Jwk>>
  {
    if up then Some(Published(s.ring)) else None
  }

  // A rotation brings a key generated for it; its kid, chosen by the administrator or from the
  // clock, may well have been used before.
  function Advanced(s: State, ttl: nat, e: Event): State
  {
    match e
    case Tick(delta) => s.(now := s.now + delta)
    case RotateTo(key, kid) =>
      if kid == "" || key.pub in s.used || !(0 <= key.pub.e < TWO_63) then s
      else (match Rotate(s.ring, key, kid, kid)
            case Ok(ring) => Moved(s, ring).(used := s.used + {key.pub})
            case Err(_) => s)
    case Retire => Moved(s, ClearPrevious(s.ring))
    case Query(kid, up) =>
      s.(cache := Queried(s.cache, ttl, kid, Document(s, up), s.now),
         fetch := if up && NeedsFetch(s.cache, ttl, kid, s.now) then s.events else s.fetch)
  }

  function Step(s: State, ttl: nat, e: Event): State
  {
    Advanced(s, ttl, e).(events := s.events + 1)
  }

  function Exec(s: State, ttl: nat, es: seq<Event>): State
    decreases |es|
  {
    if es == [] then s else Exec(Step(s, ttl, es[0]), ttl, es[1..])
  }

  // A kid's binding is its latest: a key that it carries in the cache and no longer has was
  // fetched before the binding, and taken down since.
  ghost predicate KidOk(s: State, k: string)
  {
    && (k in Serving(s.ring) ==> k in s.bound && s.bound[k].key == Serving(s.ring)[k])
    && (k in s.bound ==> s.bound[k].event < s.events && s.bound[k].at <= s.now && s.bound[k].key in s.used)
  }

  ghost predicate CachedOk(s: State, k: string)
    requires k in s.cache.keys
  {
    && k in s.bound && s.cache.keys[k] in s.used && s.cache.fetchedAt.Some?
    && (s.fetch > s.bound[k].event ==> s.cache.keys[k] == s.bound[k].key)
    && (s.fetch <= s.bound[k].event ==> s.cache.keys[k] != s.bound[k].key && s.cache.fetchedAt.value <= s.bound[k].at)
    && (Serves(Serving(s.ring), k, s.cache.keys[k]) ||
        ((k, s.cache.keys[k]) in s.gone && s.gone[(k, s.cache.keys[k])] >= s.cache.fetchedAt.value))
  }

  ghost predicate Inv(s: State)
  {
    && Sound(s.ring) && Publishable(s.ring) && s.ring.alg == RS256
    && s.fetch < s.events
    && (s.cache.keys != map[] ==> s.cache.fetchedAt.Some? && s.cache.fetchedAt.value <= s.now)
    && (forall k {:trigger KidOk(s, k)} :: KidOk(s, k))
    && (forall k {:trigger CachedOk(s, k)} :: k in s.cache.keys ==> CachedOk(s, k))
  }

  // Replacing the ring by one whose only new pairs carry a key never used before.
  lemma MoveKeepsInv(s: State, ring: Ring, used: set<PublicKey>)
    requires Inv(s) && Sound(ring) && Publishable(ring) && ring.alg == RS256 && s.used <= used
    requires forall k :: k in Serving(ring) ==>
      Serves(Serving(s.ring), k, Serving(ring)[k]) || (Serving(ring)[k] in used && Serving(ring)[k] !in s.used)
    ensures Inv(Moved(s, ring).(used := used, events := s.events + 1))
  {
    var s' := Moved(s, ring).(used := used, events := s.events + 1);
    forall k ensures KidOk(s', k) { assert KidOk(s, k); }
    forall k | k in s'.cache.keys ensures CachedOk(s', k) {
      assert CachedOk(s, k) && KidOk(s, k);
    }
  }

  lemma RotationServes(s: State, key: PrivateKey, kid: string)
    requires Inv(s) && kid != "" && Rotate(s.ring, key, kid, kid).Ok?
    ensures var ring := Rotate(s.ring, key, kid, kid).value;
      && Sound(ring) && ring.alg == RS256
      && Serving(ring) == map[s.ring.kid := s.ring.current.value.pub, kid := key.pub]
  {
  }

  lemma FetchedDocument(s: State, ttl: nat, kid: string, up: bool)
    requires Inv(s)
    ensures Queried(s.cache, ttl, kid, Document(s, up), s.now) ==
            if up && NeedsFetch(s.cache, ttl, kid, s.now) then Cache(Serving(s.ring), Some(s.now)) else s.cache
  {
    DocumentDecodes(s.ring);
    assert s.ring.kid in Serving(s.ring);
  }

  lemma QueryKeepsInv(s: State, ttl: nat, kid: string, up: bool)
    requires Inv(s)
    ensures Inv(Step(s, ttl, Query(kid, up)))
  {
    FetchedDocument(s, ttl, kid, up);
    var s' := Step(s, ttl, Query(kid, up));
    forall k ensures KidOk(s', k) { assert KidOk(s, k); }
    forall k | k in s'.cache.keys ensures CachedOk(s', k) {
      assert KidOk(s, k);
      if !up || !NeedsFetch(s.cache, ttl, kid, s.now) {
        assert CachedOk(s, k);
      }
    }
  }

  lemma TickKeepsInv(s: State, ttl: nat, delta: nat)
    requires Inv(s)
    ensures Inv(Step(s, ttl, Tick(delta)))
  {
    var s' := Step(s, ttl, Tick(delta));
    forall k ensures KidOk(s', k) { assert KidOk(s, k); }
    forall k | k in s'.cache.keys ensures CachedOk(s', k) { assert CachedOk(s, k); }
  }

  lemma RotationKeepsInv(s: State, ttl: nat, key: PrivateKey, kid: string)
    requires Inv(s)
    ensures Inv(Step(s, ttl, Event.RotateTo(key, kid)))
  {
    if kid != "" && key.pub !in s.used && 0 <= key.pub.e < TWO_63 && Rotate(s.ring, key, kid, kid).Ok? {
      RotationServes(s, key, kid);
      MoveKeepsInv(s, Rotate(s.ring, key, kid, kid).value, s.used + {key.pub});
    } else {
      TickKeepsInv(s, ttl, 0);
      assert Step(s, ttl, Event.RotateTo(key, kid)) == Step(s, ttl, Tick(0));
    }
  }

  lemma StepKeepsInv(s: State, ttl: nat, e: Event)
    requires Inv(s)
    ensures Inv(Step(s, ttl, e))
  {
    match e
    case Tick(delta) => TickKeepsInv(s, ttl, delta);
    case RotateTo(key, kid) => RotationKeepsInv(s, ttl, key, kid);
    case Retire => MoveKeepsInv(s, ClearPrevious(s.ring), s.used);
    case Query(kid, up) => QueryKeepsInv(s, ttl, kid, up);
  }

  lemma {:induction false} ExecKeepsInv(s: State, ttl: nat, es: seq<Event>)
    requires Inv(s)
    ensures Inv(Exec(s, ttl, es))
    decreases |es|
  {
    if es != [] {
      StepKeepsInv(s, ttl, es[0]);
      ExecKeepsInv(Step(s, ttl, es[0]), ttl, es[1..]);
    }
  }

  lemma StartIsOk(key: PrivateKey, kid: string)
    requires 0 <= key.pub.e < TWO_63
    ensures Inv(Start(key, kid))
  {
    var s := Start(key, kid);
    forall k ensures KidOk(s, k) { }
  }

  // What a query for this kid may be answered with now is the server's key for it.
  ghost predicate AnswersRightly(s: State, ttl: nat, kid: string, up: bool)
  {
    forall p :: Answer(s.cache, ttl, kid, Document(s, up), s.now, p) <==> Serves(Serving(s.ring), kid, p)
  }

  // Over any run of rotations, retirements, queries and outages, kids reused or not, a currently
  // published kid is answered with the server's key for it, and with nothing else, exactly when
  // the query fetches, or has the kid cached by a fetch that came after the kid got that key.
  lemma AnsweredRightlyIff(key: PrivateKey, kid0: string, ttl: nat, es: seq<Event>, kid: string, up: bool)
    requires 0 <= key.pub.e < TWO_63
    requires kid in Serving(Exec(Start(key, kid0), ttl, es).ring)
    ensures var s := Exec(Start(key, kid0), ttl, es);
      AnswersRightly(s, ttl, kid, up) <==>
        (up && NeedsFetch(s.cache, ttl, kid, s.now)) ||
        (kid in s.cache.keys && kid in s.bound && s.bound[kid].event < s.fetch)
  {
    StartIsOk(key, kid0);
    ExecKeepsInv(Start(key, kid0), ttl, es);
    AnswerIff(Exec(Start(key, kid0), ttl, es), ttl, kid, up);
  }

  lemma AnswerIff(s: State, ttl: nat, kid: string, up: bool)
    requires Inv(s) && kid in Serving(s.ring)
    ensures AnswersRightly(s, ttl, kid, up) <==>
            (up && NeedsFetch(s.cache, ttl, kid, s.now)) ||
            (kid in s.cache.keys && kid in s.bound && s.bound[kid].event < s.fetch)
  {
    FetchedDocument(s, ttl, kid, up);
    assert KidOk(s, kid);
    if kid in s.cache.keys {
      assert CachedOk(s, kid);
      assert !up || !NeedsFetch(s.cache, ttl, kid, s.now) ==>
        Answer(s.cache, ttl, kid, Document(s, up), s.now, s.cache.keys[kid]);
    } else {
      assert Serves(Serving(s.ring), kid, Serving(s.ring)[kid]);
    }
  }

  // While the server can be reached a wrong answer cannot come later than the cache's time limit
  // after the kid changed keys.
  lemma WrongAnswersAreShort(key: PrivateKey, kid0: string, ttl: nat, es: seq<Event>, kid: string)
    requires 0 <= key.pub.e < TWO_63
    requires kid in Serving(Exec(Start(key, kid0), ttl, es).ring)
    ensures var s := Exec(Start(key, kid0), ttl, es);
      kid in s.bound && (!AnswersRightly(s, ttl, kid, true) ==> s.now - s.bound[kid].at <= ttl)
  {
    StartIsOk(key, kid0);
    ExecKeepsInv(Start(key, kid0), ttl, es);
    var s := Exec(Start(key, kid0), ttl, es);
    AnswerIff(s, ttl, kid, true);
    assert KidOk(s, kid);
    if !AnswersRightly(s, ttl, kid, true) {
      assert CachedOk(s, kid);
    }
  }

  // During an outage a query is answered exactly by what is cached, whatever its age, and that
  // was published under its kid at the last fetch or later.
  lemma OutageAnswersCached(key: PrivateKey, kid0: string, ttl: nat, es: seq<Event>, kid: string, p: PublicKey)
    requires 0 <= key.pub.e < TWO_63
    ensures var s := Exec(Start(key, kid0), ttl, es);
      && (Answer(s.cache, ttl, kid, Document(s, false), s.now, p) <==> Serves(s.cache.keys, kid, p))
      && Step(s, ttl, Query(kid, false)).cache == s.cache
      && (Serves(s.cache.keys, kid, p) ==>
            s.cache.fetchedAt.Some? &&
            (Serves(Serving(s.ring), kid, p) ||
             ((kid, p) in s.gone && s.gone[(kid, p)] >= s.cache.fetchedAt.value)))
  {
    StartIsOk(key, kid0);
    ExecKeepsInv(Start(key, kid0), ttl, es);
    var s := Exec(Start(key, kid0), ttl, es);
    FetchedDocument(s, ttl, kid, false);
    assert kid in s.cache.keys ==> CachedOk(s, kid);
  }

  // Every rotation of the run names a kid that was not published before.
  ghost predicate FreshKids(s: State, ttl: nat, es: seq<Event>)
    decreases |es|
  {
    es == [] || ((es[0].RotateTo? ==> es[0].kid !in s.bound) && FreshKids(Step(s, ttl, es[0]), ttl, es[1..]))
  }

  ghost predicate NeverRebound(s: State)
  {
    forall k :: k in s.cache.keys && k in s.bound ==> s.bound[k].event < s.fetch
  }

  lemma FreshRotationNeverRebinds(s: State, key: PrivateKey, kid: string, k: string)
    requires Inv(s) && kid != "" && kid !in s.bound && Rotate(s.ring, key, kid, kid).Ok? && k in s.bound
    ensures k in Moved(s, Rotate(s.ring, key, kid, kid).value).bound
    ensures Moved(s, Rotate(s.ring, key, kid, kid).value).bound[k] == s.bound[k]
  {
    RotationServes(s, key, kid);
    assert KidOk(s, k);
  }

  lemma RetirementNeverRebinds(s: State, k: string)
    requires Inv(s) && k in s.bound
    ensures k in Moved(s, ClearPrevious(s.ring)).bound && Moved(s, ClearPrevious(s.ring)).bound[k] == s.bound[k]
  {
    assert KidOk(s, k);
  }

  lemma FreshStepNeverRebinds(s: State, ttl: nat, e: Event)
    requires Inv(s) && NeverRebound(s) && (e.RotateTo? ==> e.kid !in s.bound)
    ensures NeverRebound(Step(s, ttl, e))
  {
    var s' := Step(s, ttl, e);
    forall k | k in s'.cache.keys && k in s'.bound
      ensures s'.bound[k].event < s'.fetch
    {
      assert k in s.cache.keys ==> CachedOk(s, k);
      match e
      case Tick(_) =>
      case RotateTo(key, kid) =>
        if s'.ring != s.ring {
          FreshRotationNeverRebinds(s, key, kid, k);
        }
      case Retire => RetirementNeverRebinds(s, k);
      case Query(kid, up) =>
        FetchedDocument(s, ttl, kid, up);
        assert KidOk(s, k);
    }
  }

  lemma {:induction false} FreshKidsNeverRebind(s: State, ttl: nat, es: seq<Event>)
    requires Inv(s) && NeverRebound(s) && FreshKids(s, ttl, es)
    ensures NeverRebound(Exec(s, ttl, es))
    decreases |es|
  {
    if es != [] {
      StepKeepsInv(s, ttl, es[0]);
      FreshStepNeverRebinds(s, ttl, es[0]);
      FreshKidsNeverRebind(Step(s, ttl, es[0]), ttl, es[1..]);
    }
  }

  // So with kids never reused a published kid is answered rightly whatever the cache age, unless
  // it has to be fetched during an outage.
  lemma PublishedKidIsAnswered(key: PrivateKey, kid0: string, ttl: nat, es: seq<Event>, kid: string, up: bool)
    requires 0 <= key.pub.e < TWO_63 && FreshKids(Start(key, kid0), ttl, es)
    requires kid in Serving(Exec(Start(key, kid0), ttl, es).ring)
    ensures var s := Exec(Start(key, kid0), ttl, es);
      AnswersRightly(s, ttl, kid, up) <==> up || kid in s.cache.keys
  {
    StartIsOk(key, kid0);
    FreshKidsNeverRebind(Start(key, kid0), ttl, es);
    ExecKeepsInv(Start(key, kid0), ttl, es);
    var s := Exec(Start(key, kid0), ttl, es);
    assert KidOk(s, kid);
    AnswerIff(s, ttl, kid, up);
  }

  // Published now, or taken down no longer than `ttl` ago; under the kid asked for, if one was.
  ghost predicate RecentlyPublished(s: State, ttl: nat, kid: string, p: PublicKey)
  {
    exists k ::
      && (kid != "" ==> k == kid)
      && (Serves(Serving(s.ring), k, p) || ((k, p) in s.gone && s.now - s.gone[(k, p)] <= ttl))
  }

  // While the server can be reached, an answer was published under its kid at some moment of the
  // last `ttl`, kids reused or not.
  lemma AnswersAreFresh(key: PrivateKey, kid0: string, ttl: nat, es: seq<Event>, kid: string, p: PublicKey)
    requires 0 <= key.pub.e < TWO_63
    requires var s := Exec(Start(key, kid0), ttl, es);
      Answer(s.cache, ttl, kid, Document(s, true), s.now, p)
    ensures RecentlyPublished(Exec(Start(key, kid0), ttl, es), ttl, kid, p)
  {
    StartIsOk(key, kid0);
    ExecKeepsInv(Start(key, kid0), ttl, es);
    AnswerIsFresh(Exec(Start(key, kid0), ttl, es), ttl, kid, p);
  }

  lemma AnswerIsFresh(s: State, ttl: nat, kid: string, p: PublicKey)
    requires Inv(s) && Answer(s.cache, ttl, kid, Document(s, true), s.now, p)
    ensures RecentlyPublished(s, ttl, kid, p)
  {
    DocumentDecodes(s.ring);
    if NeedsFetch(s.cache, ttl, kid, s.now) {
      assert s.ring.kid in Serving(s.ring);
      assert Queried(s.cache, ttl, kid, Document(s, true), s.now).keys == Serving(s.ring);
      if kid in Serving(s.ring) {
        assert Serves(Serving(s.ring), kid, p);
      } else {
        var k :| k in Serving(s.ring) && Serving(s.ring)[k] == p;
        assert Serves(Serving(s.ring), k, p);
      }
    } else {
      assert CachedOk(s, kid);
      assert Serves(Serving(s.ring), kid, p) || ((kid, p) in s.gone && s.now - s.gone[(kid, p)] <= ttl);
    }
  }

  lemma TakenAgain(s: State, k2: PrivateKey, k3: PrivateKey, ttl: nat, a: string, b: string)
    requires Inv(s) && s.ring.kid == a && s.ring.prevKid == "" && a != "" && b != "" && a != b
    requires 0 <= k2.pub.e < TWO_63 && 0 <= k3.pub.e < TWO_63
    requires k2.pub !in s.used && k3.pub !in s.used && k2.pub != k3.pub
    ensures var s' := Step(Step(s, ttl, Event.RotateTo(k2, b)), ttl, Event.RotateTo(k3, a));
      s'.cache == s.cache && s'.now == s.now && Serves(Serving(s'.ring), a, k3.pub)
  {
    var s1 := Step(s, ttl, Event.RotateTo(k2, b));
    assert s1.ring == Rotate(s.ring, k2, b, b).value;
    assert s1.used == s.used + {k2.pub};
  }

  // A run in which the cache answers with the replaced key: a kid queried, given up, and taken
  // again for another key, all within the time limit.
  lemma ReusedKidAnswersOldKey(k1: PrivateKey, k2: PrivateKey, k3: PrivateKey, ttl: nat, a: string, b: string)
    requires a != "" && b != "" && a != b
    requires 0 <= k1.pub.e < TWO_63 && 0 <= k2.pub.e < TWO_63 && 0 <= k3.pub.e < TWO_63
    requires k1.pub != k2.pub && k2.pub != k3.pub && k1.pub != k3.pub
    ensures var s := Exec(Start(k1, a), ttl, [Query(a, true), Event.RotateTo(k2, b), Event.RotateTo(k3, a)]);
      && Serves(Serving(s.ring), a, k3.pub)
      && forall p :: Answer(s.cache, ttl, a, Document(s, true), s.now, p) <==> p == k1.pub
  {
    var es := [Query(a, true), Event.RotateTo(k2, b), Event.RotateTo(k3, a)];
    var s0 := Start(k1, a);
    StartIsOk(k1, a);
    FetchedDocument(s0, ttl, a, true);
    var s1 := Step(s0, ttl, es[0]);
    QueryKeepsInv(s0, ttl, a, true);
    TakenAgain(s1, k2, k3, ttl, a, b);
    ExecThree(s0, ttl, es);
  }

  lemma ExecThree(s: State, ttl: nat, es: seq<Event>)
    requires |es| == 3
    ensures Exec(s, ttl, es) == Step(Step(Step(s, ttl, es[0]), ttl, es[1]), ttl, es[2])
  {
    assert es[1..][1..] == es[2..] && es[2..][1..] == [];
    var s1 := Step(s, ttl, es[0]);
    assert Exec(s, ttl, es) == Exec(s1, ttl, es[1..]);
    var s2 := Step(s1, ttl, es[1]);
    assert Exec(s1, ttl, es[1..]) == Exec(s2, ttl, es[2..]);
    assert Exec(s2, ttl, es[2..]) == Exec(Step(s2, ttl, es[2]), ttl, []);
  }
}
