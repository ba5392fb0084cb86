/**
 * The signing-key ring: one key signs and verifies, the one before it only verifies.
 * A signature verifies exactly under the public half of the key that made it.
 */
module KeyRing {
  import opened Common
  import opened JwkCodec

  datatype Alg = HS256 | RS256

  datatype PrivateKey = PrivateKey(pub: PublicKey)

  datatype Ring = Ring(alg: Alg, current: Option<PrivateKey>, kid: string,
                       prevPrivate: Option<PrivateKey>, prevPublic: Option<PublicKey>, prevKid: string)

  const HMAC_RING := Ring(HS256, None, "hmac", None, None, "")

  function NewRing(key: PrivateKey, kid: string): Ring
  {
    Ring(RS256, Some(key), if kid == "" then "rsa-1" else kid, None, None, "")
  }

  function PublicOf(priv: Option<PrivateKey>): Option<PublicKey>
  {
    if priv.Some? then Some(priv.value.pub) else None
  }

  function SetPrevious(ring: Ring, pub: Option<PublicKey>, kid: string, priv: Option<PrivateKey>): Result<Ring>
  {
    var p := if pub.None? then PublicOf(priv) else pub;
    if ring.alg != RS256 || p.None? || kid == "" || kid == ring.kid then Err(BadRequest)
    else Ok(ring.(prevPublic := p, prevPrivate := priv, prevKid := kid))
  }

  function ClearPrevious(ring: Ring): Ring
  {
    ring.(prevPrivate := None, prevPublic := None, prevKid := "")
  }

  // `generated` stands for the time-based kid used when none is given.
  function Rotate(ring: Ring, newKey: PrivateKey, newKid: string, generated: string): Result<Ring>
  {
    var k := if newKid == "" then generated else newKid;
    if ring.alg != RS256 || ring.current.None? || k == ring.kid then Err(BadRequest)
    else Ok(Ring(RS256, Some(newKey), k, ring.current, PublicOf(ring.current), ring.kid))
  }

  // The key a token with this kid header is checked against.
  function KeyFor(ring: Ring, kid: string): Result<PublicKey>
  {
    if kid == "" || kid == ring.kid then
      if ring.current.None? then Err(InvalidCred) else Ok(ring.current.value.pub)
    else if kid == ring.prevKid && ring.prevPublic.Some? then Ok(ring.prevPublic.value)
    else Err(InvalidCred)
  }

  function Published(ring: Ring): seq<Jwk>
  {
    if ring.alg != RS256 then []
    else
      (if ring.current.Some? then [JwkFromPublic(ring.current.value.pub, ring.kid)] else []) +
      (if ring.prevPublic.Some? && ring.prevKid != "" then [JwkFromPublic(ring.prevPublic.value, ring.prevKid)] else [])
  }

  class Manager {
    var alg: Alg
    var privateKey: Option<PrivateKey>
    var publicKey: Option<PublicKey>
    var kid: string
    var prevPrivate: Option<PrivateKey>
    var prevPublic: Option<PublicKey>
    var prevKid: string

    ghost predicate Valid()
      reads this
    {
      publicKey == PublicOf(privateKey) && Sound(View())
    }

    function View(): Ring
      reads this
    {
      Ring(alg, privateKey, kid, prevPrivate, prevPublic, prevKid)
    }

    constructor Rsa(key: PrivateKey, kid: string)
      ensures Valid() && View() == NewRing(key, kid)
    {
      alg, privateKey, publicKey := RS256, Some(key), Some(key.pub);
      this.kid := if kid == "" then "rsa-1" else kid;
      prevPrivate, prevPublic, prevKid := None, None, "";
    }

    constructor Hmac()
      ensures Valid() && View() == HMAC_RING
    {
      alg, privateKey, publicKey, kid := HS256, None, None, "hmac";
      prevPrivate, prevPublic, prevKid := None, None, "";
    }

    method SetPreviousRSA(pub: Option<PublicKey>, kid: string, priv: Option<PrivateKey>) returns (r: Result<()>)
      requires Valid()
      modifies this
      ensures Valid()
      ensures r.Ok? <==> old(alg) == RS256 && (pub.Some? || priv.Some?) && kid != "" && kid != old(this.kid)
      ensures alg == old(alg) && privateKey == old(privateKey) && this.kid == old(this.kid)
      ensures r.Ok? ==> prevKid == kid && prevPrivate == priv
      ensures r.Ok? ==> prevPublic == if pub.Some? then pub else Some(priv.value.pub)
      ensures match SetPrevious(old(View()), pub, kid, priv)
        case Ok(ring) => r.Ok? && View() == ring
        case Err(e) => r == Err(e) && View() == old(View())
    {
      if alg != RS256 {
        return Err(BadRequest);
      }
      var p := pub;
      if p.None? && priv.Some? {
        p := Some(priv.value.pub);
      }
      if p.None? || kid == "" || kid == this.kid {
        return Err(BadRequest);
      }
      prevPublic := p;
      prevPrivate := priv;
      prevKid := kid;
      r := Ok(());
    }

    method ClearPreviousRSA()
      requires Valid()
      modifies this
      ensures Valid() && View() == ClearPrevious(old(View()))
      ensures alg == old(alg) && privateKey == old(privateKey) && kid == old(kid)
      ensures prevPrivate.None? && prevPublic.None? && prevKid == ""
    {
      prevPrivate := None;
      prevPublic := None;
      prevKid := "";
    }

    method RotateRSA(newKey: PrivateKey, newKid: string, generated: string) returns (r: Result<()>)
      requires Valid() && generated != ""
      modifies this
      ensures Valid()
      ensures r.Ok? <==> old(alg) == RS256 && (if newKid == "" then generated else newKid) != old(kid)
      ensures r.Ok? ==> privateKey == Some(newKey) && kid == if newKid == "" then generated else newKid
      ensures r.Ok? ==> prevPrivate == old(privateKey) && prevPublic == old(publicKey) && prevKid == old(kid)
      ensures match Rotate(old(View()), newKey, newKid, generated)
        case Ok(ring) => r.Ok? && View() == ring
        case Err(e) => r == Err(e) && View() == old(View())
    {
      if alg != RS256 {
        return Err(BadRequest);
      }
      var k := newKid;
      if k == "" {
        k := generated;
      }
      if privateKey.None? || publicKey.None? {
        return Err(BadRequest);
      }
      if k == kid {
        return Err(BadRequest);
      }
      prevPrivate := privateKey;
      prevPublic := publicKey;
      prevKid := kid;
      privateKey := Some(newKey);
      publicKey := Some(newKey.pub);
      kid := k;
      r := Ok(());
    }

    method KeyFunc(tokenKid: string) returns (r: Result<PublicKey>)
      requires Valid()
      ensures (tokenKid == "" || tokenKid == kid) && privateKey.Some? ==> r == Ok(privateKey.value.pub)
      ensures tokenKid != "" && tokenKid == prevKid ==> prevPublic.Some? && r == Ok(prevPublic.value)
      ensures tokenKid != "" && tokenKid != kid && tokenKid != prevKid ==> r == Err(InvalidCred)
      ensures r == KeyFor(View(), tokenKid)
    {
      if tokenKid == "" || tokenKid == kid {
        if publicKey.None? {
          return Err(InvalidCred);
        }
        return Ok(publicKey.value);
      }
      if tokenKid == prevKid && prevPublic.Some? {
        return Ok(prevPublic.value);
      }
      r := Err(InvalidCred);
    }

    method JWKS() returns (keys: seq<Jwk>)
      requires Valid()
      ensures alg != RS256 ==> keys == []
      ensures alg == RS256 ==>
              && |keys| == (if prevPublic.Some? then 2 else 1)
              && keys[0] == JwkFromPublic(privateKey.value.pub, kid)
              && (prevPublic.Some? ==> keys[1] == JwkFromPublic(prevPublic.value, prevKid))
      ensures keys == Published(View())
    {
      keys := [];
      if alg != RS256 {
        return;
      }
      if publicKey.Some? {
        keys := keys + [JwkFromPublic(publicKey.value, kid)];
      }
      if prevPublic.Some? && prevKid != "" {
        keys := keys + [JwkFromPublic(prevPublic.value, prevKid)];
      }
    }
  }

  // ---------------------------------------------------------------- every run

  // Kids differ and are set, and an old key is there exactly with its kid.
  ghost predicate Sound(ring: Ring)
  {
    && ring.kid != "" && ring.kid != ring.prevKid
    && (ring.prevPublic.Some? <==> ring.prevKid != "")
    && (ring.prevPrivate.Some? ==> ring.prevPublic.Some?)
    && (ring.alg == RS256 <==> ring.current.Some?)
    && (ring.alg != RS256 ==> ring.prevPublic.None?)
  }

  datatype Event =
    | RotateTo(key: PrivateKey, kid: string, generated: string)
    | Retire
    | Previous(pub: Option<PublicKey>, kid: string, priv: Option<PrivateKey>)

  function Step(ring: Ring, e: Event): Ring
  {
    match e
    case RotateTo(key, kid, generated) =>
      (match Rotate(ring, key, kid, if generated == "" then "rsa-0" else generated) case Ok(r) => r case Err(_) => ring)
    case Retire => ClearPrevious(ring)
    case Previous(pub, kid, priv) => (match SetPrevious(ring, pub, kid, priv) case Ok(r) => r case Err(_) => ring)
  }

  function Exec(ring: Ring, es: seq<Event>): Ring
    decreases |es|
  {
    if es == [] then ring else Exec(Step(ring, es[0]), es[1..])
  }

  lemma {:induction false} RunsStaySound(ring: Ring, es: seq<Event>)
    requires Sound(ring)
    ensures Sound(Exec(ring, es))
    decreases |es|
  {
    if es != [] {
      RunsStaySound(Step(ring, es[0]), es[1..]);
    }
  }

  predicate Publishable(ring: Ring)
  {
    && (ring.current.Some? ==> 0 <= ring.current.value.pub.e < TWO_63)
    && (ring.prevPublic.Some? ==> 0 <= ring.prevPublic.value.e < TWO_63)
  }

  // The published set is exactly the kid-to-key map tokens are checked with.
  lemma PublishedIsWhatVerifies(ring: Ring, kid: string, p: PublicKey)
    requires Sound(ring) && Publishable(ring) && kid != "" && 0 <= p.e < TWO_63
    ensures JwkFromPublic(p, kid) in Published(ring) <==> KeyFor(ring, kid) == Ok(p)
  {
    PublishRoundTripIff(p, kid);
    if ring.current.Some? {
      PublishRoundTripIff(ring.current.value.pub, ring.kid);
    }
    if ring.prevPublic.Some? {
      PublishRoundTripIff(ring.prevPublic.value, ring.prevKid);
    }
  }

  // The published set always holds the signing key under the kid it signs with.
  lemma SignerIsPublished(ring: Ring)
    requires Sound(ring) && ring.alg == RS256
    ensures JwkFromPublic(ring.current.value.pub, ring.kid) == Published(ring)[0]
    ensures KeyFor(ring, ring.kid) == Ok(ring.current.value.pub)
  {
  }

  // How old the key of a token is after a run.
  datatype Age = Signing | VerifyOnly | Gone

  function AgeStep(age: Age, ring: Ring, e: Event): Age
  {
    if e.Retire? then (if age == Signing then Signing else Gone)
    else if Step(ring, e) == ring then age
    else if e.Previous? then (if age == Signing then Signing else Gone)
    else match age
      case Signing => VerifyOnly
      case _ => Gone
  }

  function AgeAfter(age: Age, ring: Ring, es: seq<Event>): Age
    decreases |es|
  {
    if es == [] then age else AgeAfter(AgeStep(age, ring, es[0]), Step(ring, es[0]), es[1..])
  }

  predicate HoldsAs(ring: Ring, age: Age, kid: string, key: PrivateKey)
  {
    match age
    case Signing => ring.current == Some(key) && ring.kid == kid
    case VerifyOnly => ring.prevPublic == Some(key.pub) && ring.prevKid == kid
    case Gone => true
  }

  lemma {:induction false} AgeIsTracked(ring: Ring, age: Age, es: seq<Event>, kid: string, key: PrivateKey)
    requires Sound(ring) && HoldsAs(ring, age, kid, key) && kid != ""
    ensures HoldsAs(Exec(ring, es), AgeAfter(age, ring, es), kid, key)
    decreases |es|
  {
    if es != [] {
      AgeIsTracked(Step(ring, es[0]), AgeStep(age, ring, es[0]), es[1..], kid, key);
    }
  }

  // A signing key verifies its tokens through any run until a second rotation, or until
  // the old key is retired or replaced after the first one.
  lemma TokenLivesUntilGone(ring: Ring, es: seq<Event>)
    requires Sound(ring) && ring.alg == RS256
    ensures AgeAfter(Signing, ring, es) != Gone ==> KeyFor(Exec(ring, es), ring.kid) == Ok(ring.current.value.pub)
  {
    AgeIsTracked(ring, Signing, es, ring.kid, ring.current.value);
    RunsStaySound(ring, es);
  }

  predicate Brings(e: Event, pub: PublicKey)
  {
    match e
    case RotateTo(key, _, _) => key.pub == pub
    case Retire => false
    case Previous(p, _, priv) => p == Some(pub) || PublicOf(priv) == Some(pub)
  }

  // Where the key may be, given its age.
  predicate OnlyThere(ring: Ring, age: Age, pub: PublicKey)
  {
    && (PublicOf(ring.current) == Some(pub) ==> age == Signing)
    && (ring.prevPublic == Some(pub) ==> age == VerifyOnly)
  }

  lemma {:induction false} KeyDoesNotReturn(ring: Ring, age: Age, es: seq<Event>, pub: PublicKey)
    requires Sound(ring) && OnlyThere(ring, age, pub)
    requires forall i :: 0 <= i < |es| ==> !Brings(es[i], pub)
    ensures OnlyThere(Exec(ring, es), AgeAfter(age, ring, es), pub)
    decreases |es|
  {
    if es != [] {
      assert !Brings(es[0], pub);
      KeyDoesNotReturn(Step(ring, es[0]), AgeStep(age, ring, es[0]), es[1..], pub);
    }
  }

  // When nobody brings the key back, that is also the only way its tokens verify.
  lemma TokenVerifiesIffNotGone(ring: Ring, es: seq<Event>)
    requires Sound(ring) && ring.alg == RS256 && ring.prevPublic != Some(ring.current.value.pub)
    requires forall i :: 0 <= i < |es| ==> !Brings(es[i], ring.current.value.pub)
    ensures KeyFor(Exec(ring, es), ring.kid) == Ok(ring.current.value.pub) <==> AgeAfter(Signing, ring, es) != Gone
  {
    TokenLivesUntilGone(ring, es);
    KeyDoesNotReturn(ring, Signing, es, ring.current.value.pub);
  }
}
