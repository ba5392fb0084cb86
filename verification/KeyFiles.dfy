/**
 * The key ring on disk: rotation and retirement write it, start-up reads it back.
 * Kid files sit beside key files; a key file is a PEM block of one key.
 */
module KeyFiles {
  import opened Common
  import opened JwkCodec
  import opened KeyRing
  import opened Spaces

  datatype Content = PrivatePem(key: PrivateKey) | PublicPem(pub: PublicKey) | Text(text: string) | Junk

  type Files = map<string, Content>

  datatype Config = Config(algorithm: string, privatePath: string, publicPath: string, kid: string,
                           previousPrivatePath: string, previousPublicPath: string, previousKid: string)
  {
    predicate Hmac() {
      algorithm == "HS256"
    }

    function PrevPrivate(): (r: string)
      ensures previousPrivatePath != "" ==> r == previousPrivatePath
    {
      if previousPrivatePath != "" then previousPrivatePath else SiblingPrevPath(privatePath)
    }

    function PrevPublic(): (r: string)
      ensures previousPublicPath != "" ==> r == previousPublicPath
    {
      if previousPublicPath != "" then previousPublicPath else SiblingPrevPath(publicPath)
    }
  }

  // ---------------------------------------------------------------- paths

  // The extension: from the last dot of the last path element.
  function Ext(path: string): (r: string)
    ensures |r| <= |path| && path[|path| - |r|..] == r
  {
    if path == "" || path[|path| - 1] == '/' then ""
    else if path[|path| - 1] == '.' then "."
    else
      var e := Ext(path[..|path| - 1]);
      if e == "" then "" else e + [path[|path| - 1]]
  }

  function SiblingPrevPath(path: string): (r: string)
    ensures path == "" <==> r == ""
    ensures path != "" ==> |r| == |path| + 5
  {
    if path == "" then ""
    else
      var ext := Ext(path);
      if ext == "" then path + ".prev" else path[..|path| - |ext|] + ".prev" + ext
  }

  // An extension: a dot, and no dot or slash after it.
  predicate IsExt(e: string)
  {
    e != "" && e[0] == '.' && forall i :: 1 <= i < |e| ==> e[i] != '.' && e[i] != '/'
  }

  lemma {:induction false} ExtIsExt(path: string)
    ensures Ext(path) == "" || IsExt(Ext(path))
  {
    if path != "" && path[|path| - 1] != '/' && path[|path| - 1] != '.' {
      ExtIsExt(path[..|path| - 1]);
    }
  }

  lemma ExtSnoc(path: string, c: char)
    ensures Ext(path + [c]) ==
            if c == '/' then "" else if c == '.' then "." else if Ext(path) == "" then "" else Ext(path) + [c]
  {
    assert (path + [c])[..|path|] == path;
  }

  lemma {:induction false} ExtOfPart(base: string, e: string, n: nat)
    requires IsExt(e) && 1 <= n <= |e|
    ensures Ext(base + e[..n]) == e[..n]
  {
    var c := e[n - 1];
    assert e[..n] == e[..n - 1] + [c];
    if n == 1 {
      ExtSnoc(base, c);
      assert e[..1] == [c];
    } else {
      ExtOfPart(base, e, n - 1);
      ExtSnoc(base + e[..n - 1], c);
      assert base + e[..n] == base + e[..n - 1] + [c];
    }
  }

  lemma ExtOfJoin(base: string, e: string)
    requires IsExt(e)
    ensures Ext(base + e) == e
  {
    ExtOfPart(base, e, |e|);
    assert e[..|e|] == e;
  }

  function Stem(path: string): string
  {
    path[..|path| - |Ext(path)|]
  }

  lemma SiblingShape(path: string)
    requires path != ""
    ensures path == Stem(path) + Ext(path)
    ensures SiblingPrevPath(path) == Stem(path) + ".prev" + Ext(path)
  {
    var e := Ext(path);
    if e == "" {
      assert Stem(path) == path;
      assert (path + ".prev") + "" == path + ".prev";
    } else {
      assert SiblingPrevPath(path) == Stem(path) + ".prev" + e;
    }
  }

  lemma SiblingParts(path: string)
    requires path != ""
    ensures path == Stem(path) + Ext(path)
    ensures SiblingPrevPath(path) == Stem(path) + ".prev" + Ext(path)
    ensures Ext(SiblingPrevPath(path)) == if Ext(path) == "" then ".prev" else Ext(path)
  {
    SiblingShape(path);
    ExtIsExt(path);
    var stem, e := Stem(path) + ".prev", Ext(path);
    if e == "" {
      assert stem + e == Stem(path) + ".prev";
      ExtOfJoin(Stem(path), ".prev");
    } else {
      ExtOfJoin(stem, e);
    }
  }

  lemma Cancel(a: string, b: string, e: string)
    requires a + e == b + e
    ensures a == b
  {
    assert |a| == |b|;
    assert (a + e)[..|a|] == a && (b + e)[..|b|] == b;
  }

  // Derived paths never run together: a sibling is not its own key file, and different key
  // files have different siblings.
  lemma SiblingsAreDistinct(a: string, b: string)
    requires a != "" && b != ""
    ensures SiblingPrevPath(a) != a
    ensures SiblingPrevPath(a) == SiblingPrevPath(b) ==> a == b
  {
    SiblingParts(a);
    SiblingParts(b);
    if SiblingPrevPath(a) == SiblingPrevPath(b) {
      if Ext(a) == Ext(b) {
        Cancel(Stem(a) + ".prev", Stem(b) + ".prev", Ext(a));
        Cancel(Stem(a), Stem(b), ".prev");
      } else if Ext(a) == "" {
        Cancel(Stem(a), Stem(b) + ".prev", ".prev");
      } else {
        Cancel(Stem(a) + ".prev", Stem(b), ".prev");
      }
    }
  }

  function KidPath(path: string): (r: string)
    ensures |r| == |path| + 4 && r != path
  {
    path + ".kid"
  }

  // A key file and the kid file beside it; an empty path names no file.
  function FilesOf(path: string): set<string>
  {
    if path == "" then {} else {path, KidPath(path)}
  }

  // ---------------------------------------------------------------- file operations

  function WriteKeyPair(files: Files, key: PrivateKey, privatePath: string, publicPath: string): Files
  {
    var f := if privatePath != "" then files[privatePath := PrivatePem(key)] else files;
    if publicPath != "" then f[publicPath := PublicPem(key.pub)] else f
  }

  function WriteKid(files: Files, path: string, kid: string): Files
  {
    if path == "" || kid == "" then files else files[KidPath(path) := Text(kid + "\n")]
  }

  function ReadKid(files: Files, path: string): string
  {
    if path != "" && KidPath(path) in files && files[KidPath(path)].Text? then TrimSpace(files[KidPath(path)].text)
    else ""
  }

  function LoadPrivate(files: Files, path: string): Option<PrivateKey>
  {
    if path in files && files[path].PrivatePem? then Some(files[path].key) else None
  }

  function LoadPublic(files: Files, path: string): Option<PublicKey>
  {
    if path !in files then None
    else match files[path]
      case PublicPem(p) => Some(p)
      case PrivatePem(k) => Some(k.pub)
      case _ => None
  }

  function Or(a: string, b: string): string
  {
    if a != "" then a else b
  }

  // ---------------------------------------------------------------- what the three operations do

  datatype Image = Image(ring: Ring, files: Files)

  function LoadOrGenerate(files: Files, privatePath: string, publicPath: string, newKey: PrivateKey)
    : (PrivateKey, Files)
  {
    var loaded := if privatePath != "" then LoadPrivate(files, privatePath) else None;
    if loaded.Some? then (loaded.value, files)
    else if privatePath == "" then (newKey, files)
    else (newKey, WriteKeyPair(files, newKey, privatePath, publicPath))
  }

  // The current key and its kid: read, or generated and written.
  function BootCurrent(cfg: Config, files: Files, newKey: PrivateKey): (PrivateKey, string, Files)
  {
    var (key, f) := LoadOrGenerate(files, cfg.privatePath, cfg.publicPath, newKey);
    var kid := Or(ReadKid(f, cfg.privatePath), cfg.kid);
    (key, kid, WriteKid(f, cfg.privatePath, kid))
  }

  function PreviousPrivate(cfg: Config, files: Files): Option<PrivateKey>
  {
    if cfg.PrevPrivate() != "" then LoadPrivate(files, cfg.PrevPrivate()) else None
  }

  function PreviousPublic(cfg: Config, files: Files): Option<PublicKey>
  {
    var priv := PreviousPrivate(cfg, files);
    if priv.Some? then Some(priv.value.pub)
    else if cfg.PrevPublic() != "" then LoadPublic(files, cfg.PrevPublic()) else None
  }

  function PreviousKid(cfg: Config, files: Files, kid: string): string
  {
    Or(Or(Or(ReadKid(files, cfg.PrevPrivate()), ReadKid(files, cfg.PrevPublic())), cfg.previousKid), kid + "-prev")
  }

  function BootPrevious(cfg: Config, files: Files, ring: Ring, kid: string): Result<Ring>
  {
    if PreviousPublic(cfg, files).None? then Ok(ring)
    else SetPrevious(ring, PreviousPublic(cfg, files), PreviousKid(cfg, files, kid), PreviousPrivate(cfg, files))
  }

  function Boot(cfg: Config, files: Files, newKey: PrivateKey): Result<Image>
  {
    if cfg.Hmac() then Ok(Image(HMAC_RING, files)) else
    var (key, kid, f) := BootCurrent(cfg, files, newKey);
    match BootPrevious(cfg, f, NewRing(key, kid), kid)
    case Err(e) => Err(e)
    case Ok(ring) => Ok(Image(ring, f))
  }

  // The signing key is the one on disk, or a new one that is written there; its kid is the one
  // on disk, or the configured one, and is written back.
  lemma BootTakesCurrent(cfg: Config, files: Files, newKey: PrivateKey)
    requires cfg.publicPath == "" || cfg.publicPath !in FilesOf(cfg.privatePath)
    ensures var held := cfg.privatePath != "" && cfg.privatePath in files && files[cfg.privatePath].PrivatePem?;
      var (key, kid, f) := BootCurrent(cfg, files, newKey);
      && key == (if held then files[cfg.privatePath].key else newKey)
      && kid == (if ReadKid(files, cfg.privatePath) != "" then ReadKid(files, cfg.privatePath) else cfg.kid)
      && (cfg.privatePath != "" ==> Lookup(f, cfg.privatePath) == Some(PrivatePem(key)))
      && (cfg.privatePath != "" && kid != "" ==> Lookup(f, cfg.privatePath + ".kid") == Some(Text(kid + "\n")))
      && (cfg.privatePath != "" && cfg.publicPath != "" && !held ==>
            Lookup(f, cfg.publicPath) == Some(PublicPem(newKey.pub)))
  {
    assert cfg.privatePath != cfg.privatePath + ".kid";
  }

  // Whatever half of a previous key is on disk comes up as the previous key, and only that.
  lemma BootTakesPrevious(cfg: Config, files: Files, newKey: PrivateKey)
    requires !cfg.Hmac()
    ensures match Boot(cfg, files, newKey)
      case Ok(im) =>
        && im.ring.prevPublic == PreviousPublic(cfg, im.files)
        && im.ring.prevPrivate == PreviousPrivate(cfg, im.files)
        && (im.ring.prevPublic.Some? && ReadKid(im.files, cfg.PrevPrivate()) != "" ==>
              im.ring.prevKid == ReadKid(im.files, cfg.PrevPrivate()))
      case Err(e) => e == BadRequest && PreviousPublic(cfg, BootCurrent(cfg, files, newKey).2).Some?
  {
  }

  function WritePrevious(cfg: Config, files: Files, ring: Ring): Files
  {
    if ring.prevPrivate.None? then files
    else
      var f1 := WriteKeyPair(files, ring.prevPrivate.value, cfg.PrevPrivate(), cfg.PrevPublic());
      var f2 := WriteKid(f1, cfg.PrevPrivate(), ring.prevKid);
      WriteKid(f2, cfg.PrevPublic(), ring.prevKid)
  }

  function RotateKeys(cfg: Config, im: Image, newKey: PrivateKey, kid: string, generated: string): Result<Image>
  {
    if cfg.privatePath == "" then Err(BadRequest)
    else match Rotate(im.ring, newKey, kid, generated)
      case Err(e) => Err(e)
      case Ok(ring) =>
        var f := WriteKid(WriteKeyPair(im.files, newKey, cfg.privatePath, cfg.publicPath), cfg.privatePath, ring.kid);
        Ok(Image(ring, WritePrevious(cfg, f, ring)))
  }

  function RetirePrevious(cfg: Config, im: Image): Result<Image>
  {
    if im.ring.alg != RS256 || im.ring.prevKid == "" then Err(BadRequest)
    else Ok(Image(ClearPrevious(im.ring),
                  im.files - FilesOf(cfg.PrevPrivate()) - FilesOf(cfg.PrevPublic())))
  }

  function Removed(files: Files, path: string): Files
  {
    if path == "" then files else files - {path}
  }

  function RemovedKid(files: Files, path: string): Files
  {
    if path == "" then files else files - {KidPath(path)}
  }

  lemma RemovedFour(files: Files, a: string, b: string)
    ensures RemovedKid(RemovedKid(Removed(Removed(files, a), b), a), b) == files - FilesOf(a) - FilesOf(b)
  {
  }

  class Disk {
    var files: Files

    method WriteFile(path: string, c: Content)
      modifies this
      ensures files == old(files)[path := c]
    {
      files := files[path := c];
    }

    method Remove(path: string)
      modifies this
      ensures files == if path == "" then old(files) else old(files) - {path}
      ensures files == Removed(old(files), path)
    {
      if path != "" {
        files := files - {path};
      }
    }

    method RemoveKidFile(path: string)
      modifies this
      ensures files == if path == "" then old(files) else old(files) - {path + ".kid"}
      ensures files == RemovedKid(old(files), path)
    {
      if path == "" {
        return;
      }
      Remove(KidPath(path));
    }

    method WriteRSAKeyPair(key: PrivateKey, privatePath: string, publicPath: string)
      modifies this
      ensures privatePath != "" && privatePath != publicPath ==> Lookup(files, privatePath) == Some(PrivatePem(key))
      ensures publicPath != "" ==> Lookup(files, publicPath) == Some(PublicPem(key.pub))
      ensures forall path :: path == "" || path !in {privatePath, publicPath} ==>
                Lookup(files, path) == Lookup(old(files), path)
      ensures files == WriteKeyPair(old(files), key, privatePath, publicPath)
    {
      if privatePath != "" {
        WriteFile(privatePath, PrivatePem(key));
      }
      if publicPath != "" {
        WriteFile(publicPath, PublicPem(key.pub));
      }
    }

    method WriteKidFile(path: string, kid: string)
      modifies this
      ensures files == if path == "" || kid == "" then old(files) else old(files)[path + ".kid" := Text(kid + "\n")]
      ensures files == WriteKid(old(files), path, kid)
    {
      if path == "" || kid == "" {
        return;
      }
      WriteFile(KidPath(path), Text(kid + "\n"));
    }

    method LoadOrGenerateRSA(privatePath: string, publicPath: string, newKey: PrivateKey) returns (key: PrivateKey)
      modifies this
      ensures privatePath != "" && privatePath in old(files) && old(files)[privatePath].PrivatePem? ==>
                key == old(files)[privatePath].key && files == old(files)
      ensures !(privatePath != "" && privatePath in old(files) && old(files)[privatePath].PrivatePem?) ==>
                key == newKey &&
                files == if privatePath == "" then old(files)
                         else WriteKeyPair(old(files), newKey, privatePath, publicPath)
      ensures (key, files) == LoadOrGenerate(old(files), privatePath, publicPath, newKey)
    {
      if privatePath != "" {
        var loaded := LoadPrivate(files, privatePath);
        if loaded.Some? {
          return loaded.value;
        }
      }
      key := newKey;
      if privatePath != "" {
        WriteRSAKeyPair(key, privatePath, publicPath);
      }
    }

    method LoadPreviousKey(cfg: Config) returns (priv: Option<PrivateKey>, pub: Option<PublicKey>)
      // The previous private key if there is one, else the previous public key alone.
      ensures priv.Some? <==>
              cfg.PrevPrivate() != "" && cfg.PrevPrivate() in files && files[cfg.PrevPrivate()].PrivatePem?
      ensures priv.Some? ==> files[cfg.PrevPrivate()] == PrivatePem(priv.value) && pub == Some(priv.value.pub)
      ensures priv.None? && cfg.PrevPublic() != "" && cfg.PrevPublic() in files ==>
                && (files[cfg.PrevPublic()].PublicPem? ==> pub == Some(files[cfg.PrevPublic()].pub))
                && (files[cfg.PrevPublic()].PrivatePem? ==> pub == Some(files[cfg.PrevPublic()].key.pub))
                && (files[cfg.PrevPublic()].Text? || files[cfg.PrevPublic()].Junk? ==> pub.None?)
      ensures priv.None? && (cfg.PrevPublic() == "" || cfg.PrevPublic() !in files) ==> pub.None?
      ensures priv == PreviousPrivate(cfg, files) && pub == PreviousPublic(cfg, files)
    {
      priv, pub := None, None;
      if cfg.PrevPrivate() != "" {
        priv := LoadPrivate(files, cfg.PrevPrivate());
        pub := PublicOf(priv);
      }
      if pub.None? && cfg.PrevPublic() != "" {
        pub := LoadPublic(files, cfg.PrevPublic());
      }
    }

    method LoadPreviousKid(cfg: Config, kid: string) returns (prevKid: string)
      ensures prevKid == if ReadKid(files, cfg.PrevPrivate()) != "" then ReadKid(files, cfg.PrevPrivate())
                         else if ReadKid(files, cfg.PrevPublic()) != "" then ReadKid(files, cfg.PrevPublic())
                         else if cfg.previousKid != "" then cfg.previousKid
                         else kid + "-prev"
      ensures prevKid == PreviousKid(cfg, files, kid)
    {
      prevKid := cfg.previousKid;
      var k := ReadKid(files, cfg.PrevPrivate());
      if k != "" {
        prevKid := k;
      } else {
        k := ReadKid(files, cfg.PrevPublic());
        if k != "" {
          prevKid := k;
        }
      }
      if prevKid == "" {
        prevKid := kid + "-prev";
      }
    }

    // `newKey` is the key generated when none can be loaded.
    method BuildJWT(cfg: Config, newKey: PrivateKey) returns (r: Result<Manager>)
      modifies this
      ensures match Boot(cfg, old(files), newKey)
        case Ok(im) => r.Ok? && fresh(r.value) && r.value.Valid() && Image(r.value.View(), files) == im
        case Err(e) => r == Err(e)
      ensures cfg.algorithm == "HS256" ==> r.Ok? && r.value.alg == HS256 && files == old(files)
      ensures cfg.algorithm != "HS256" && r.Ok? ==>
        var held := cfg.privatePath != "" && cfg.privatePath in old(files) && old(files)[cfg.privatePath].PrivatePem?;
        && r.value.alg == RS256
        && r.value.privateKey == Some(if held then old(files)[cfg.privatePath].key else newKey)
    {
      if cfg.algorithm == "HS256" {
        var hmac := new Manager.Hmac();
        return Ok(hmac);
      }
      var key := LoadOrGenerateRSA(cfg.privatePath, cfg.publicPath, newKey);
      var kid := cfg.kid;
      var k := ReadKid(files, cfg.privatePath);
      if k != "" {
        kid := k;
      }
      var mgr := new Manager.Rsa(key, kid);
      WriteKidFile(cfg.privatePath, kid);
      assert (key, kid, files) == BootCurrent(cfg, old(files), newKey);
      var prevPriv, prevPub := LoadPreviousKey(cfg);
      if prevPub.Some? {
        var prevKid := LoadPreviousKid(cfg, kid);
        var done := mgr.SetPreviousRSA(prevPub, prevKid, prevPriv);
        if done.Err? {
          return Err(done.error);
        }
      }
      r := Ok(mgr);
    }
  }

  class KeyAdmin {
    const cfg: Config
    const disk: Disk
    const jwt: Manager

    constructor (cfg: Config, disk: Disk, jwt: Manager)
      ensures this.cfg == cfg && this.disk == disk && this.jwt == jwt
    {
      this.cfg := cfg;
      this.disk := disk;
      this.jwt := jwt;
    }

    method RotateJWTKeys(newKey: PrivateKey, kid: string, generated: string) returns (r: Result<()>)
      requires jwt.Valid() && generated != ""
      modifies disk, jwt
      ensures jwt.Valid()
      ensures r.Ok? <==> old(jwt.alg) == RS256 && cfg.privatePath != "" &&
                         (if kid == "" then generated else kid) != old(jwt.kid)
      ensures r.Err? ==> disk.files == old(disk.files)
      ensures r.Ok? ==> jwt.privateKey == Some(newKey) && jwt.kid == (if kid == "" then generated else kid)
      ensures r.Ok? ==> jwt.prevPrivate == old(jwt.privateKey) && jwt.prevKid == old(jwt.kid)
      ensures match RotateKeys(cfg, old(Image(jwt.View(), disk.files)), newKey, kid, generated)
        case Ok(im) => r.Ok? && Image(jwt.View(), disk.files) == im
        case Err(e) => r == Err(e) && Image(jwt.View(), disk.files) == old(Image(jwt.View(), disk.files))
    {
      if jwt.alg != RS256 || cfg.privatePath == "" {
        return Err(BadRequest);
      }
      var rotated := jwt.RotateRSA(newKey, kid, generated);
      if rotated.Err? {
        return Err(rotated.error);
      }
      disk.WriteRSAKeyPair(newKey, cfg.privatePath, cfg.publicPath);
      disk.WriteKidFile(cfg.privatePath, jwt.kid);
      if jwt.prevPrivate.Some? {
        disk.WriteRSAKeyPair(jwt.prevPrivate.value, cfg.PrevPrivate(), cfg.PrevPublic());
        disk.WriteKidFile(cfg.PrevPrivate(), jwt.prevKid);
        if cfg.PrevPublic() != "" {
          disk.WriteKidFile(cfg.PrevPublic(), jwt.prevKid);
        }
      }
      r := Ok(());
    }

    method RetireJWTPrevious() returns (r: Result<()>)
      requires jwt.Valid()
      modifies disk, jwt
      ensures jwt.Valid()
      ensures r.Ok? <==> old(jwt.alg) == RS256 && old(jwt.prevKid) != ""
      ensures r.Ok? ==> jwt.prevKid == "" && jwt.prevPublic.None? && jwt.prevPrivate.None?
      ensures r.Ok? ==> disk.files.Keys == old(disk.files).Keys - FilesOf(cfg.PrevPrivate()) - FilesOf(cfg.PrevPublic())
      ensures jwt.privateKey == old(jwt.privateKey) && jwt.kid == old(jwt.kid)
      ensures match RetirePrevious(cfg, old(Image(jwt.View(), disk.files)))
        case Ok(im) => r.Ok? && Image(jwt.View(), disk.files) == im
        case Err(e) => r == Err(e) && Image(jwt.View(), disk.files) == old(Image(jwt.View(), disk.files))
    {
      if jwt.alg != RS256 || jwt.prevKid == "" {
        return Err(BadRequest);
      }
      jwt.ClearPreviousRSA();
      RemovedFour(disk.files, cfg.PrevPrivate(), cfg.PrevPublic());
      disk.Remove(cfg.PrevPrivate());
      disk.Remove(cfg.PrevPublic());
      disk.RemoveKidFile(cfg.PrevPrivate());
      disk.RemoveKidFile(cfg.PrevPublic());
      r := Ok(());
    }
  }

  // ---------------------------------------------------------------- the round trip

  function PreviousFiles(cfg: Config): set<string>
  {
    FilesOf(cfg.PrevPrivate()) + FilesOf(cfg.PrevPublic())
  }

  // No two of the files are the same file, and there is a place for the private key.
  predicate DistinctPaths(cfg: Config)
  {
    && cfg.privatePath != ""
    && FilesOf(cfg.privatePath) !! PreviousFiles(cfg)
    && FilesOf(cfg.PrevPrivate()) !! FilesOf(cfg.PrevPublic())
    && (cfg.publicPath == "" || cfg.publicPath !in FilesOf(cfg.privatePath) + PreviousFiles(cfg))
  }

  predicate Sited(cfg: Config)
  {
    DistinctPaths(cfg) && !cfg.Hmac()
  }

  // Starting from these files gives back this ring and leaves the files as they are.
  ghost predicate Reloads(cfg: Config, im: Image)
  {
    forall newKey :: Boot(cfg, im.files, newKey) == Ok(im)
  }

  ghost predicate Good(cfg: Config, im: Image)
  {
    Reloads(cfg, im) && Sound(im.ring) && im.ring.alg == RS256 && Trimmed(im.ring.kid)
  }

  // A kid chosen at start-up and written back is chosen again.
  lemma KidSettles(files: Files, path: string, fallback: string)
    requires path != "" && Trimmed(fallback)
    ensures var kid := Or(ReadKid(files, path), fallback);
      var f := WriteKid(files, path, kid);
      Trimmed(kid) && Or(ReadKid(f, path), fallback) == kid && WriteKid(f, path, kid) == f
  {
    var kid := Or(ReadKid(files, path), fallback);
    if KidPath(path) in files && files[KidPath(path)].Text? {
      TrimIsTrimmed(files[KidPath(path)].text);
    }
    NewlineIsTrimmed(kid);
  }

  lemma BootCurrentSettles(cfg: Config, files: Files, newKey: PrivateKey, other: PrivateKey)
    requires Sited(cfg) && Trimmed(cfg.kid)
    ensures var (key, kid, f) := BootCurrent(cfg, files, newKey);
      Trimmed(kid) && BootCurrent(cfg, f, other) == (key, kid, f)
  {
    var (key, f) := LoadOrGenerate(files, cfg.privatePath, cfg.publicPath, newKey);
    var kid := Or(ReadKid(f, cfg.privatePath), cfg.kid);
    KidSettles(f, cfg.privatePath, cfg.kid);
    var g := WriteKid(f, cfg.privatePath, kid);
    assert LoadPrivate(f, cfg.privatePath) == Some(key);
    assert LoadPrivate(g, cfg.privatePath) == Some(key);
  }

  lemma NewRingKidTrimmed(key: PrivateKey, kid: string)
    requires Trimmed(kid)
    ensures Trimmed(NewRing(key, kid).kid)
  {
    assert Trimmed("rsa-1");
  }

  lemma PreviousKeepsCurrent(cfg: Config, f: Files, ring: Ring, kid: string)
    requires BootPrevious(cfg, f, ring, kid).Ok?
    ensures BootPrevious(cfg, f, ring, kid).value.kid == ring.kid
    ensures BootPrevious(cfg, f, ring, kid).value.current == ring.current
  {
  }

  lemma SameCurrentSameBoot(cfg: Config, f: Files, g: Files, newKey: PrivateKey, other: PrivateKey)
    requires !cfg.Hmac() && BootCurrent(cfg, g, other) == BootCurrent(cfg, f, newKey)
    ensures Boot(cfg, g, other) == Boot(cfg, f, newKey)
  {
  }

  lemma BootReloads(cfg: Config, files: Files, newKey: PrivateKey, other: PrivateKey)
    requires Sited(cfg) && Trimmed(cfg.kid) && Boot(cfg, files, newKey).Ok?
    ensures var im := Boot(cfg, files, newKey).value;
      Boot(cfg, im.files, other) == Ok(im) && Trimmed(im.ring.kid)
  {
    BootCurrentSettles(cfg, files, newKey, other);
    var (key, kid, f) := BootCurrent(cfg, files, newKey);
    SameCurrentSameBoot(cfg, files, f, newKey, other);
    PreviousKeepsCurrent(cfg, f, NewRing(key, kid), kid);
    NewRingKidTrimmed(key, kid);
  }

  lemma BootIsGood(cfg: Config, files: Files, newKey: PrivateKey)
    requires Sited(cfg) && Trimmed(cfg.kid) && Boot(cfg, files, newKey).Ok?
    ensures Good(cfg, Boot(cfg, files, newKey).value)
  {
    var im := Boot(cfg, files, newKey).value;
    forall other ensures Boot(cfg, im.files, other) == Ok(im) { BootReloads(cfg, files, newKey, other); }
    BootReloads(cfg, files, newKey, newKey);
  }

  // The files of the current key, whatever was written beside them.
  lemma CurrentReloads(cfg: Config, f: Files, g: Files, key: PrivateKey, kid: string, other: PrivateKey)
    requires Sited(cfg)
    requires g == WriteKid(WriteKeyPair(f, key, cfg.privatePath, cfg.publicPath), cfg.privatePath, kid)
    requires kid != ""
    ensures LoadPrivate(g, cfg.privatePath) == Some(key)
    ensures ReadKid(g, cfg.privatePath) == TrimSpace(kid)
    ensures WriteKid(g, cfg.privatePath, kid) == g
  {
    NewlineIsTrimmed(kid);
  }

  // Writing the previous key leaves the current key's files alone.
  lemma WritePreviousElsewhere(cfg: Config, f: Files, ring: Ring, path: string)
    requires path !in PreviousFiles(cfg)
    ensures Lookup(WritePrevious(cfg, f, ring), path) == Lookup(f, path)
  {
  }

  lemma RotatedCurrentReloads(cfg: Config, im: Image, newKey: PrivateKey, kid: string, generated: string,
                              other: PrivateKey)
    requires Sited(cfg) && RotateKeys(cfg, im, newKey, kid, generated).Ok? && generated != ""
    ensures var im' := RotateKeys(cfg, im, newKey, kid, generated).value;
      var r := BootCurrent(cfg, im'.files, other);
      && r.0 == newKey
      && r.1 == Or(TrimSpace(im'.ring.kid), cfg.kid)
      && (Trimmed(im'.ring.kid) ==> r.2 == im'.files)
  {
    var im' := RotateKeys(cfg, im, newKey, kid, generated).value;
    var g := WriteKid(WriteKeyPair(im.files, newKey, cfg.privatePath, cfg.publicPath), cfg.privatePath, im'.ring.kid);
    CurrentReloads(cfg, im.files, g, newKey, im'.ring.kid, other);
    WritePreviousElsewhere(cfg, g, im'.ring, cfg.privatePath);
    WritePreviousElsewhere(cfg, g, im'.ring, KidPath(cfg.privatePath));
    assert LoadPrivate(im'.files, cfg.privatePath) == Some(newKey);
    assert ReadKid(im'.files, cfg.privatePath) == TrimSpace(im'.ring.kid);
  }

  lemma RotatedPreviousReloads(cfg: Config, im: Image, newKey: PrivateKey, kid: string, generated: string)
    requires Sited(cfg) && Good(cfg, im) && RotateKeys(cfg, im, newKey, kid, generated).Ok? && generated != ""
    ensures var im' := RotateKeys(cfg, im, newKey, kid, generated).value;
      BootPrevious(cfg, im'.files, NewRing(newKey, im'.ring.kid), im'.ring.kid) == Ok(im'.ring)
  {
    NewlineIsTrimmed(im.ring.kid);
  }

  lemma RotationReboots(cfg: Config, im: Image, newKey: PrivateKey, kid: string, generated: string, other: PrivateKey)
    requires Sited(cfg) && Good(cfg, im) && generated != ""
    requires RotateKeys(cfg, im, newKey, kid, generated).Ok?
    requires Trimmed(RotateKeys(cfg, im, newKey, kid, generated).value.ring.kid)
    ensures var im' := RotateKeys(cfg, im, newKey, kid, generated).value;
      Boot(cfg, im'.files, other) == Ok(im')
  {
    var im' := RotateKeys(cfg, im, newKey, kid, generated).value;
    RotatedCurrentReloads(cfg, im, newKey, kid, generated, other);
    RotatedPreviousReloads(cfg, im, newKey, kid, generated);
    assert BootCurrent(cfg, im'.files, other) == (newKey, im'.ring.kid, im'.files);
  }

  lemma RotatedPreviousFound(cfg: Config, im: Image, newKey: PrivateKey, kid: string, generated: string, any: string)
    requires Sited(cfg) && Good(cfg, im) && RotateKeys(cfg, im, newKey, kid, generated).Ok? && generated != ""
    ensures var im' := RotateKeys(cfg, im, newKey, kid, generated).value;
      PreviousPublic(cfg, im'.files).Some? && PreviousKid(cfg, im'.files, any) == im.ring.kid
  {
    NewlineIsTrimmed(im.ring.kid);
  }

  // Writing the current kid hides nothing of the previous key.
  lemma CurrentKidElsewhere(cfg: Config, f: Files, kid: string, any: string)
    requires Sited(cfg)
    ensures var g := WriteKid(f, cfg.privatePath, kid);
      PreviousPublic(cfg, g) == PreviousPublic(cfg, f) && PreviousPrivate(cfg, g) == PreviousPrivate(cfg, f) &&
      PreviousKid(cfg, g, any) == PreviousKid(cfg, f, any)
  {
    assert KidPath(cfg.privatePath) !in PreviousFiles(cfg);
  }

  // The kid that start-up takes after a rotation to a kid.
  function KidRead(cfg: Config, kid: string): string
  {
    Or(Or(TrimSpace(kid), cfg.kid), "rsa-1")
  }

  // A kid with surrounding space is lost: the next start takes another one, or fails when that
  // is the very kid the rotation replaced.
  lemma UntrimmedKidIsLost(cfg: Config, im: Image, newKey: PrivateKey, kid: string, generated: string,
                           other: PrivateKey)
    requires Sited(cfg) && Trimmed(cfg.kid) && Good(cfg, im) && generated != ""
    requires RotateKeys(cfg, im, newKey, kid, generated).Ok?
    requires !Trimmed(RotateKeys(cfg, im, newKey, kid, generated).value.ring.kid)
    ensures var im' := RotateKeys(cfg, im, newKey, kid, generated).value;
      var r := Boot(cfg, im'.files, other);
      && KidRead(cfg, im'.ring.kid) != im'.ring.kid
      && (r.Err? <==> KidRead(cfg, im'.ring.kid) == im.ring.kid)
      && (r.Ok? ==> r.value.ring.kid == KidRead(cfg, im'.ring.kid))
  {
    var im' := RotateKeys(cfg, im, newKey, kid, generated).value;
    RotatedCurrentReloads(cfg, im, newKey, kid, generated, other);
    var k := BootCurrent(cfg, im'.files, other).1;
    KidReadDiffers(cfg, im'.ring.kid);
    RotatedPreviousFound(cfg, im, newKey, kid, generated, k);
    CurrentKidElsewhere(cfg, im'.files, k, k);
    BootDecides(cfg, im'.files, other);
  }

  lemma KidReadDiffers(cfg: Config, kid: string)
    requires Trimmed(cfg.kid) && !Trimmed(kid)
    ensures KidRead(cfg, kid) != kid
  {
    TrimIsTrimmed(kid);
    assert Trimmed("rsa-1");
  }

  // With a previous key on disk, a start fails exactly when both keys come up under one kid.
  lemma BootDecides(cfg: Config, files: Files, other: PrivateKey)
    requires !cfg.Hmac()
    requires var (key, k, f) := BootCurrent(cfg, files, other);
      PreviousPublic(cfg, f).Some? && PreviousKid(cfg, f, k) != ""
    ensures var (key, k, f) := BootCurrent(cfg, files, other);
      && (Boot(cfg, files, other).Err? <==> NewRing(key, k).kid == PreviousKid(cfg, f, k))
      && (Boot(cfg, files, other).Ok? ==> Boot(cfg, files, other).value.ring.kid == NewRing(key, k).kid)
  {
    var (key, k, f) := BootCurrent(cfg, files, other);
    if BootPrevious(cfg, f, NewRing(key, k), k).Ok? {
      PreviousKeepsCurrent(cfg, f, NewRing(key, k), k);
    }
  }

  // What a successful rotation leaves on disk: both halves of the new key with its kid, both
  // halves of the one it replaced with the old kid, and every other file as it was.
  lemma RotationWritesAll(cfg: Config, im: Image, newKey: PrivateKey, kid: string, generated: string)
    requires DistinctPaths(cfg) && RotateKeys(cfg, im, newKey, kid, generated).Ok?
    requires generated != "" && im.ring.current.Some? && im.ring.kid != ""
    ensures var f := RotateKeys(cfg, im, newKey, kid, generated).value.files;
      var was, k := im.ring.current.value, if kid == "" then generated else kid;
      && Lookup(f, cfg.privatePath) == Some(PrivatePem(newKey))
      && Lookup(f, cfg.privatePath + ".kid") == Some(Text(k + "\n"))
      && (cfg.publicPath != "" ==> Lookup(f, cfg.publicPath) == Some(PublicPem(newKey.pub)))
      && Lookup(f, cfg.PrevPrivate()) == Some(PrivatePem(was))
      && Lookup(f, cfg.PrevPrivate() + ".kid") == Some(Text(im.ring.kid + "\n"))
      && (cfg.PrevPublic() != "" ==>
            Lookup(f, cfg.PrevPublic()) == Some(PublicPem(was.pub)) &&
            Lookup(f, cfg.PrevPublic() + ".kid") == Some(Text(im.ring.kid + "\n")))
    ensures var f := RotateKeys(cfg, im, newKey, kid, generated).value.files;
      forall path :: path !in FilesOf(cfg.privatePath) + {cfg.publicPath} + PreviousFiles(cfg) ==>
        Lookup(f, path) == Lookup(im.files, path)
  {
  }

  // After a successful rotation the files rebuild the ring exactly when the new kid has
  // no surrounding space.
  lemma RotationReloadsIff(cfg: Config, im: Image, newKey: PrivateKey, kid: string, generated: string)
    requires Sited(cfg) && Trimmed(cfg.kid) && Good(cfg, im) && generated != ""
    requires RotateKeys(cfg, im, newKey, kid, generated).Ok?
    ensures var im' := RotateKeys(cfg, im, newKey, kid, generated).value;
      Reloads(cfg, im') <==> Trimmed(im'.ring.kid)
  {
    var im' := RotateKeys(cfg, im, newKey, kid, generated).value;
    forall other ensures Boot(cfg, im'.files, other) == Ok(im') <==> Trimmed(im'.ring.kid) {
      if Trimmed(im'.ring.kid) {
        RotationReboots(cfg, im, newKey, kid, generated, other);
      } else {
        UntrimmedKidIsLost(cfg, im, newKey, kid, generated, other);
      }
    }
    assert Reloads(cfg, im') ==> Boot(cfg, im'.files, newKey) == Ok(im');
  }

  lemma SameKidFile(f: Files, g: Files, path: string, kid: string)
    requires WriteKid(f, path, kid) == f && Lookup(g, KidPath(path)) == Lookup(f, KidPath(path))
    ensures WriteKid(g, path, kid) == g
  {
    if path != "" && kid != "" {
      assert f[KidPath(path)] == Text(kid + "\n");
      assert g[KidPath(path) := Text(kid + "\n")] == g;
    }
  }

  lemma RetiredCurrentReloads(cfg: Config, f: Files, g: Files, other: PrivateKey)
    requires Sited(cfg) && g == f - FilesOf(cfg.PrevPrivate()) - FilesOf(cfg.PrevPublic())
    requires LoadPrivate(f, cfg.privatePath).Some? && BootCurrent(cfg, f, other).2 == f
    ensures var (key, kid, _) := BootCurrent(cfg, f, other);
      BootCurrent(cfg, g, other) == (key, kid, g)
  {
    assert cfg.privatePath !in PreviousFiles(cfg) && KidPath(cfg.privatePath) !in PreviousFiles(cfg);
    assert Lookup(g, cfg.privatePath) == Lookup(f, cfg.privatePath);
    assert Lookup(g, KidPath(cfg.privatePath)) == Lookup(f, KidPath(cfg.privatePath));
    assert ReadKid(g, cfg.privatePath) == ReadKid(f, cfg.privatePath);
    assert LoadPrivate(g, cfg.privatePath) == LoadPrivate(f, cfg.privatePath);
    var kid := BootCurrent(cfg, f, other).1;
    assert WriteKid(f, cfg.privatePath, kid) == f;
    SameKidFile(f, g, cfg.privatePath, kid);
  }

  lemma ReloadingFilesHoldKey(cfg: Config, im: Image)
    requires Sited(cfg) && Reloads(cfg, im)
    ensures LoadPrivate(im.files, cfg.privatePath).Some?
    ensures forall other :: BootCurrent(cfg, im.files, other).2 == im.files
  {
    forall other ensures BootCurrent(cfg, im.files, other).2 == im.files {
      assert Boot(cfg, im.files, other) == Ok(im);
    }
    var a, b := PrivateKey(PublicKey(0, 0)), PrivateKey(PublicKey(1, 0));
    assert Boot(cfg, im.files, a) == Boot(cfg, im.files, b);
  }

  lemma RetirementReloads(cfg: Config, im: Image)
    requires Sited(cfg) && Good(cfg, im) && RetirePrevious(cfg, im).Ok?
    ensures Good(cfg, RetirePrevious(cfg, im).value)
  {
    var im' := RetirePrevious(cfg, im).value;
    ReloadingFilesHoldKey(cfg, im);
    forall other ensures Boot(cfg, im'.files, other) == Ok(im') {
      assert Boot(cfg, im.files, other) == Ok(im);
      RetiredCurrentReloads(cfg, im.files, im'.files, other);
      assert PreviousPublic(cfg, im'.files).None?;
    }
  }

  datatype Event =
    | RotateTo(newKey: PrivateKey, kid: string, generated: string)
    | Retire
    | Restart(newKey: PrivateKey)

  // A refused operation changes nothing.
  function Step(cfg: Config, im: Image, e: Event): Image
  {
    var r := match e
      case RotateTo(key, kid, generated) => RotateKeys(cfg, im, key, kid, generated)
      case Retire => RetirePrevious(cfg, im)
      case Restart(key) => Boot(cfg, im.files, key);
    match r case Ok(next) => next case Err(_) => im
  }

  function Exec(cfg: Config, im: Image, es: seq<Event>): Image
    decreases |es|
  {
    if es == [] then im else Exec(cfg, Step(cfg, im, es[0]), es[1..])
  }

  predicate TrimmedKids(e: Event)
  {
    e.RotateTo? ==> Trimmed(e.kid) && Trimmed(e.generated) && e.generated != ""
  }

  lemma StepStaysGood(cfg: Config, im: Image, e: Event)
    requires Sited(cfg) && Trimmed(cfg.kid) && Good(cfg, im) && TrimmedKids(e)
    ensures Good(cfg, Step(cfg, im, e))
  {
    match e
    case RotateTo(key, kid, generated) =>
      if RotateKeys(cfg, im, key, kid, generated).Ok? {
        RotationReloadsIff(cfg, im, key, kid, generated);
      }
    case Retire =>
      if RetirePrevious(cfg, im).Ok? {
        RetirementReloads(cfg, im);
      }
    case Restart(key) =>
      assert Boot(cfg, im.files, key) == Ok(im);
  }

  lemma {:induction false} RunStaysGood(cfg: Config, im: Image, es: seq<Event>)
    requires Sited(cfg) && Trimmed(cfg.kid) && Good(cfg, im)
    requires forall i :: 0 <= i < |es| ==> TrimmedKids(es[i])
    ensures Good(cfg, Exec(cfg, im, es))
    decreases |es|
  {
    if es != [] {
      StepStaysGood(cfg, im, es[0]);
      RunStaysGood(cfg, Step(cfg, im, es[0]), es[1..]);
    }
  }

  // Under HS256 no operation touches ring or files.
  lemma {:induction false} HmacRunStays(cfg: Config, im: Image, es: seq<Event>)
    requires cfg.Hmac() && im.ring == HMAC_RING
    ensures Exec(cfg, im, es) == im
    decreases |es|
  {
    if es != [] {
      HmacRunStays(cfg, Step(cfg, im, es[0]), es[1..]);
    }
  }

  // From any disk the service can start on, after any sequence of rotations, retirements
  // and restarts, starting again rebuilds exactly the ring in memory.
  lemma DiskRebuildsRing(cfg: Config, files: Files, newKey: PrivateKey, es: seq<Event>, other: PrivateKey)
    requires DistinctPaths(cfg) && Trimmed(cfg.kid) && Boot(cfg, files, newKey).Ok?
    requires forall i :: 0 <= i < |es| ==> TrimmedKids(es[i])
    ensures var im := Exec(cfg, Boot(cfg, files, newKey).value, es);
      Boot(cfg, im.files, other) == Ok(im)
  {
    if cfg.Hmac() {
      HmacRunStays(cfg, Boot(cfg, files, newKey).value, es);
    } else {
      BootIsGood(cfg, files, newKey);
      RunStaysGood(cfg, Boot(cfg, files, newKey).value, es);
    }
  }
}
