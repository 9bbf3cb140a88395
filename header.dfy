/**
 HTTP header maps as the client decorators see them. A header map sends each
 canonical field name to its values in the order they were added, and adding a
 value first puts the field name into canonical form (the behaviour of Go's
 `http.Header.Add`).
 */
module HttpHeader {

  type HeaderMap = map<string, seq<string>>

  /** A character allowed in a header field name (a token character of RFC 7230, section 3.2.6). */
  predicate IsTokenChar(c: char) {
    || ('a' <= c <= 'z')
    || ('A' <= c <= 'Z')
    || ('0' <= c <= '9')
    || c in "!#$%&'*+-.^_`|~"
  }

  predicate IsToken(s: string) {
    forall i :: 0 <= i < |s| ==> IsTokenChar(s[i])
  }

  function Upper(c: char): (u: char)
    ensures 'a' <= c <= 'z' ==> 'A' <= u <= 'Z'
    ensures !('a' <= c <= 'z') ==> u == c
  {
    if 'a' <= c <= 'z' then (c as int - 32) as char else c
  }

  function Lower(c: char): (l: char)
    ensures 'A' <= c <= 'Z' ==> 'a' <= l <= 'z'
    ensures !('A' <= c <= 'Z') ==> l == c
  {
    if 'A' <= c <= 'Z' then (c as int + 32) as char else c
  }

  /** Whether position `i` of `s` starts a word; `upper` says whether position 0 does. */
  predicate StartsWord(s: string, i: nat, upper: bool)
    requires i < |s|
  {
    if i == 0 then upper else s[i - 1] == '-'
  }

  /** Every letter in canonical case: upper case where a word starts, lower case elsewhere. */
  ghost predicate CaseFixed(s: string, upper: bool) {
    forall i :: 0 <= i < |s| ==>
      if StartsWord(s, i, upper) then !('a' <= s[i] <= 'z') else !('A' <= s[i] <= 'Z')
  }

  /** Canonical case: the first letter and every letter after a hyphen upper case, all others lower case. */
  ghost predicate IsCanonical(s: string) {
    CaseFixed(s, true)
  }

  /**
   The case-fixing pass of the canonical form; `upper` says whether the first
   character of `s` starts a word.
   */
  function CanonicalFrom(s: string, upper: bool): (r: string)
    ensures |r| == |s|
    ensures forall i :: 0 <= i < |s| ==> Lower(r[i]) == Lower(s[i])
    ensures |s| > 0 ==> r[0] == if upper then Upper(s[0]) else Lower(s[0])
    ensures forall i :: 0 < i < |s| ==> r[i] == if r[i - 1] == '-' then Upper(s[i]) else Lower(s[i])
  {
    if s == [] then []
    else
      var c := if upper then Upper(s[0]) else Lower(s[0]);
      [c] + CanonicalFrom(s[1..], c == '-')
  }

  /**
   The key under which `Header.Add` files a value: a name made of token
   characters is put in canonical case, any other name is left as it is.
   */
  function CanonicalKey(name: string): (k: string)
    ensures |k| == |name|
    ensures forall i :: 0 <= i < |name| ==> Lower(k[i]) == Lower(name[i])
    ensures IsToken(name) ==> IsCanonical(k) && IsToken(k)
    ensures !IsToken(name) ==> k == name
  {
    if IsToken(name) then CanonicalFrom(name, true) else name
  }

  /** A name already in canonical case is its own key. */
  lemma {:induction false} CanonicalFromFixed(s: string, upper: bool)
    requires CaseFixed(s, upper)
    ensures CanonicalFrom(s, upper) == s
  {
    if s != [] {
      var t := s[1..];
      forall i | 0 <= i < |t|
        ensures if StartsWord(t, i, s[0] == '-') then !('a' <= t[i] <= 'z') else !('A' <= t[i] <= 'Z')
      {
        assert t[i] == s[i + 1] && StartsWord(s, i + 1, upper) == StartsWord(t, i, s[0] == '-');
      }
      CanonicalFromFixed(t, s[0] == '-');
      assert StartsWord(s, 0, upper) == upper;
      assert [s[0]] + t == s;
    }
  }

  lemma CanonicalKeyFixed(name: string)
    requires IsToken(name) && IsCanonical(name)
    ensures CanonicalKey(name) == name
  {
    CanonicalFromFixed(name, true);
  }

  /** Canonicalising twice changes nothing more than canonicalising once. */
  lemma CanonicalKeyIdempotent(name: string)
    ensures CanonicalKey(CanonicalKey(name)) == CanonicalKey(name)
  {
    if IsToken(name) {
      CanonicalKeyFixed(CanonicalKey(name));
    }
  }

  /** The values held under `key`; none when the key is absent. */
  function Values(h: HeaderMap, key: string): seq<string> {
    if key in h then h[key] else []
  }

  /**
   `Header.Add`: append `value` after the values already held under the
   canonical form of `name`; every other field keeps its values.
   */
  function AddValue(h: HeaderMap, name: string, value: string): (r: HeaderMap)
    ensures Values(r, CanonicalKey(name)) == Values(h, CanonicalKey(name)) + [value]
    ensures r.Keys == h.Keys + {CanonicalKey(name)}
    ensures forall k :: k in h && k != CanonicalKey(name) ==> r[k] == h[k]
  {
    var key := CanonicalKey(name);
    h[key := Values(h, key) + [value]]
  }

  /** A request whose header map the decorators change in place. */
  class Request {
    var header: HeaderMap

    constructor (header: HeaderMap)
      ensures this.header == header
    {
      this.header := header;
    }

    /** `r.Header.Add(name, value)`. */
    method AddHeader(name: string, value: string)
      modifies this
      ensures header == AddValue(old(header), name, value)
    {
      header := AddValue(header, name, value);
    }
  }
}
