/**
 * Multi-factor codes: a one-time password is tried first, and a backup code is spent by
 * removing its hash from the stored list.
 */
module BackupCodes {
  import opened Common
  import opened Spaces

  // Token hashing, taken as injective.
  datatype Hash = HashToken(token: string)

  const CODES: nat := 8

  // The part of a user's credential row that multi-factor checks use.
  datatype Credential = Credential(enabled: bool, secret: string, hashes: seq<Hash>)

  const NO_MFA := Credential(false, "", [])

  function Hashes(codes: seq<string>): (hs: seq<Hash>)
    ensures |hs| == |codes|
    ensures forall i :: 0 <= i < |codes| ==> hs[i] == HashToken(codes[i])
  {
    if codes == [] then [] else Hashes(codes[..|codes| - 1]) + [HashToken(codes[|codes| - 1])]
  }

  // The list after scanning it once: the first occurrence of x is dropped, anything later stays.
  function WithoutFirst(s: seq<Hash>, x: Hash): seq<Hash>
  {
    if s == [] then []
    else
      var init, last := s[..|s| - 1], s[|s| - 1];
      if x !in init && last == x then init else WithoutFirst(init, x) + [last]
  }

  lemma {:induction false} WithoutAbsent(s: seq<Hash>, x: Hash)
    requires x !in s
    ensures WithoutFirst(s, x) == s
  {
    if s != [] {
      WithoutAbsent(s[..|s| - 1], x);
      assert s == s[..|s| - 1] + [s[|s| - 1]];
    }
  }

  // Exactly the first occurrence goes, the others keep their order.
  lemma {:induction false} RemovesFirstOccurrence(s: seq<Hash>, x: Hash, i: nat)
    requires i < |s| && s[i] == x && x !in s[..i]
    ensures WithoutFirst(s, x) == s[..i] + s[i + 1..]
  {
    var init, last := s[..|s| - 1], s[|s| - 1];
    if i < |init| {
      assert init[i] == x && init[..i] == s[..i];
      RemovesFirstOccurrence(init, x, i);
      assert s[i + 1..] == init[i + 1..] + [last];
    } else {
      assert s[..i] == init;
    }
  }

  lemma {:induction false} FirstIndex(s: seq<Hash>, x: Hash) returns (i: nat)
    requires x in s
    ensures i < |s| && s[i] == x && x !in s[..i]
  {
    var init := s[..|s| - 1];
    if x in init {
      i := FirstIndex(init, x);
      assert init[..i] == s[..i];
    } else {
      i := |s| - 1;
    }
  }

  lemma RemovesOneOccurrence(s: seq<Hash>, x: Hash)
    requires x in s
    ensures multiset(s) == multiset(WithoutFirst(s, x)) + multiset{x}
  {
    var i := FirstIndex(s, x);
    RemovesFirstOccurrence(s, x, i);
    Parts(s, x, i);
  }

  lemma Parts(s: seq<Hash>, x: Hash, i: nat)
    requires i < |s| && s[i] == x
    ensures multiset(s) == multiset(s[..i] + s[i + 1..]) + multiset{x}
  {
    assert s == s[..i] + [x] + s[i + 1..];
  }

  // ---------------------------------------------------------------- the service

  datatype Call =
    | Setup(secret: string)
    | Enable(totp: bool, codes: seq<string>)  // the codes drawn for this enabling
    | Disable
    | Verify(code: string, totp: bool)        // `totp` says that the code is a current one-time password

  predicate Spends(c: Credential, code: string, totp: bool)
  {
    c.enabled && c.secret != "" && !totp && HashToken(TrimSpace(code)) in c.hashes
  }

  predicate Accepts(c: Credential, code: string, totp: bool)
  {
    c.enabled && c.secret != "" && (totp || HashToken(TrimSpace(code)) in c.hashes)
  }

  function Step(c: Credential, e: Call): Credential
  {
    match e
    case Setup(secret) => if c.enabled then c else c.(secret := secret)
    case Enable(totp, codes) => if c.secret == "" || !totp then c else Credential(true, c.secret, Hashes(codes))
    case Disable => NO_MFA
    case Verify(code, totp) =>
      if Spends(c, code, totp) then c.(hashes := WithoutFirst(c.hashes, HashToken(TrimSpace(code)))) else c
  }

  class Mfa {
    var cred: Credential

    constructor ()
      ensures cred == NO_MFA
    {
      cred := NO_MFA;
    }

    method Setup(secret: string) returns (r: Result<()>)
      requires secret != ""
      modifies this
      ensures r.Ok? <==> !old(cred).enabled
      ensures r.Err? ==> r.error == BadRequest
      ensures cred == if r.Ok? then Credential(false, secret, old(cred).hashes) else old(cred)
      ensures cred == Step(old(cred), Call.Setup(secret))
    {
      if cred.enabled {
        return Err(BadRequest);
      }
      cred := cred.(secret := secret, enabled := false);
      r := Ok(());
    }

    // Hashes the drawn codes one by one.
    static method GenerateBackupCodes(drawn: seq<string>) returns (codes: seq<string>, hashes: seq<Hash>)
      ensures codes == drawn && hashes == Hashes(drawn)
    {
      codes, hashes := [], [];
      for i := 0 to |drawn|
        invariant codes == drawn[..i] && hashes == Hashes(drawn[..i])
      {
        assert drawn[..i + 1][..i] == drawn[..i];
        codes, hashes := codes + [drawn[i]], hashes + [HashToken(drawn[i])];
      }
      assert drawn[..|drawn|] == drawn;
    }

    method Enable(totp: bool, drawn: seq<string>) returns (r: Result<seq<string>>)
      requires |drawn| == CODES
      modifies this
      ensures r.Ok? <==> old(cred).secret != "" && totp
      ensures r.Err? ==> cred == old(cred) && r.error == if old(cred).secret == "" then BadRequest else InvalidCred
      ensures r.Ok? ==> cred.enabled && cred.secret == old(cred).secret && |cred.hashes| == |drawn| &&
                        forall i :: 0 <= i < |drawn| ==> cred.hashes[i] == HashToken(drawn[i])
      ensures cred == Step(old(cred), Call.Enable(totp, drawn))
      ensures r.Ok? ==> r.value == drawn && |cred.hashes| == CODES
    {
      if cred.secret == "" {
        return Err(BadRequest);
      }
      if !totp {
        return Err(InvalidCred);
      }
      var codes, hashes := GenerateBackupCodes(drawn);
      cred := cred.(enabled := true, hashes := hashes);
      r := Ok(codes);
    }

    method Disable()
      modifies this
      ensures cred == Credential(false, "", [])
      ensures cred == Step(old(cred), Call.Disable)
    {
      cred := NO_MFA;
    }

    method VerifyMFACode(code: string, totp: bool) returns (r: Result<()>)
      modifies this
      // A right one-time password is enough and spends nothing.
      ensures r.Ok? <==> old(cred).enabled && old(cred).secret != "" &&
                         (totp || HashToken(TrimSpace(code)) in old(cred).hashes)
      ensures cred.enabled == old(cred).enabled && cred.secret == old(cred).secret
      ensures r.Ok? && !totp ==>
              multiset(old(cred).hashes) == multiset(cred.hashes) + multiset{HashToken(TrimSpace(code))}
      ensures r.Err? || totp ==> cred == old(cred)
      ensures cred == Step(old(cred), Verify(code, totp))
      ensures r.Ok? <==> Accepts(old(cred), code, totp)
      ensures r.Err? ==> r.error == if old(cred).enabled && old(cred).secret != "" then InvalidCred else BadRequest
    {
      if !cred.enabled || cred.secret == "" {
        return Err(BadRequest);
      }
      if totp {
        return Ok(());
      }
      var h := HashToken(TrimSpace(code));
      var all, left, used := cred.hashes, [], false;
      for i := 0 to |all|
        invariant cred == old(cred)
        invariant used <==> h in all[..i]
        invariant left == WithoutFirst(all[..i], h)
      {
        assert all[..i + 1][..i] == all[..i];
        if !used {
          WithoutAbsent(all[..i], h);
        }
        if !used && all[i] == h {
          used := true;
        } else {
          left := left + [all[i]];
        }
      }
      assert all[..|all|] == all;
      if !used {
        return Err(InvalidCred);
      }
      RemovesOneOccurrence(all, h);
      cred := cred.(hashes := left);
      r := Ok(());
    }
  }

  // ---------------------------------------------------------------- runs

  // What was issued at the last enabling, and the backup codes accepted since.
  datatype Ledger = Ledger(issued: seq<string>, spent: seq<string>)

  predicate Drawn(es: seq<Call>)
  {
    forall i :: 0 <= i < |es| && es[i].Enable? ==> |es[i].codes| == CODES
  }

  function Exec(es: seq<Call>): Credential
  {
    if es == [] then NO_MFA else Step(Exec(es[..|es| - 1]), es[|es| - 1])
  }

  function Booked(l: Ledger, c: Credential, e: Call): Ledger
  {
    match e
    case Enable(totp, codes) => if c.secret != "" && totp then Ledger(codes, []) else l
    case Disable => Ledger([], [])
    case Verify(code, totp) => if Spends(c, code, totp) then l.(spent := l.spent + [TrimSpace(code)]) else l
    case Setup(_) => l
  }

  function Account(es: seq<Call>): Ledger
  {
    if es == [] then Ledger([], [])
    else Booked(Account(es[..|es| - 1]), Exec(es[..|es| - 1]), es[|es| - 1])
  }

  lemma HashesExtend(codes: seq<string>, code: string)
    ensures Hashes(codes + [code]) == Hashes(codes) + [HashToken(code)]
  {
    assert (codes + [code])[..|codes|] == codes;
  }

  lemma StepConserves(c: Credential, l: Ledger, e: Call)
    requires multiset(c.hashes) + multiset(Hashes(l.spent)) == multiset(Hashes(l.issued))
    ensures multiset(Step(c, e).hashes) + multiset(Hashes(Booked(l, c, e).spent))
         == multiset(Hashes(Booked(l, c, e).issued))
  {
    if e.Verify? && Spends(c, e.code, e.totp) {
      var code := TrimSpace(e.code);
      RemovesOneOccurrence(c.hashes, HashToken(code));
      HashesExtend(l.spent, code);
    }
  }

  // Through any run, hashes remaining and backup codes accepted since the last enabling are
  // together exactly the codes that enabling issued.
  lemma {:induction false} CodesAreConserved(es: seq<Call>)
    ensures multiset(Exec(es).hashes) + multiset(Hashes(Account(es).spent)) == multiset(Hashes(Account(es).issued))
  {
    if es != [] {
      var init := es[..|es| - 1];
      CodesAreConserved(init);
      StepConserves(Exec(init), Account(init), es[|es| - 1]);
    }
  }

  lemma {:induction false} EnabledMeansIssued(es: seq<Call>)
    requires Drawn(es)
    ensures |Account(es).issued| == if Exec(es).enabled then CODES else 0
    ensures Exec(es).enabled ==> Exec(es).secret != ""
    ensures !Exec(es).enabled ==> Exec(es).hashes == []
  {
    if es != [] {
      var init := es[..|es| - 1];
      assert Drawn(init);
      EnabledMeansIssued(init);
    }
  }

  // While the second factor stays on, codes accepted and hashes remaining always total eight.
  lemma AlwaysEight(es: seq<Call>)
    requires Drawn(es) && Exec(es).enabled
    ensures |Account(es).spent| + |Exec(es).hashes| == CODES
  {
    CodesAreConserved(es);
    EnabledMeansIssued(es);
    var c, l := Exec(es), Account(es);
    assert |multiset(c.hashes) + multiset(Hashes(l.spent))| == |c.hashes| + |l.spent|;
    assert |multiset(Hashes(l.issued))| == |l.issued|;
  }

  function Count(codes: seq<string>, code: string): nat
  {
    multiset(Hashes(codes))[HashToken(code)]
  }

  // A backup code is accepted exactly while it was issued more often than it was spent:
  // once in all for a code drawn once.
  lemma AcceptedIffUnspent(es: seq<Call>, code: string)
    requires Drawn(es) && Exec(es).enabled
    ensures var l := Account(es);
      Accepts(Exec(es), code, false) <==> Count(l.spent, TrimSpace(code)) < Count(l.issued, TrimSpace(code))
  {
    CodesAreConserved(es);
    EnabledMeansIssued(es);
    var c, l, h := Exec(es), Account(es), HashToken(TrimSpace(code));
    assert (multiset(c.hashes) + multiset(Hashes(l.spent)))[h] == multiset(c.hashes)[h] + multiset(Hashes(l.spent))[h];
  }
}
