/** Trimming white space from both ends of a text, as kid files and codes are read. */
module Spaces {

  predicate IsSpace(c: char)
  {
    c in {' ', '\t', '\n', '\r', '\U{000B}', '\U{000C}', '\U{0085}', '\U{00A0}', '\U{1680}', '\U{2028}', '\U{2029}',
          '\U{202F}', '\U{205F}', '\U{3000}'} ||
    '\U{2000}' <= c <= '\U{200A}'
  }

  function TrimRight(s: string): (r: string)
    ensures r != "" ==> !IsSpace(r[|r| - 1])
    ensures s != "" && !IsSpace(s[|s| - 1]) ==> r == s
  {
    if s != "" && IsSpace(s[|s| - 1]) then TrimRight(s[..|s| - 1]) else s
  }

  function TrimLeft(s: string): (r: string)
    ensures r != "" ==> !IsSpace(r[0]) && s != "" && r[|r| - 1] == s[|s| - 1]
    ensures s != "" && !IsSpace(s[0]) ==> r == s
  {
    if s != "" && IsSpace(s[0]) then TrimLeft(s[1..]) else s
  }

  function TrimSpace(s: string): string
  {
    TrimLeft(TrimRight(s))
  }

  predicate Trimmed(s: string)
  {
    TrimSpace(s) == s
  }

  lemma TrimIsTrimmed(s: string)
    ensures Trimmed(TrimSpace(s))
  {
  }

  lemma NewlineIsTrimmed(kid: string)
    ensures TrimSpace(kid + "\n") == TrimSpace(kid)
  {
    assert (kid + "\n")[..|kid + "\n"| - 1] == kid;
  }
}
