/**
  * String operations the scripts apply to a log line and to a client key:
  * `str.find`, slicing with possibly negative bounds, `str.split`, and the
  * two field extractions built from them.
  */
module LineFields {
  import opened Common

  /** `s.find(ch)`: the index of the first `ch`, or -1 when there is none. */
  function Find(s: string, ch: char): (r: int)
    ensures r == -1 <==> ch !in s
    ensures r != -1 ==> 0 <= r < |s| && s[r] == ch && ch !in s[..r]
  {
    if s == [] then -1
    else if s[0] == ch then 0
    else
      var rest := Find(s[1..], ch);
      assert ch in s[1..] ==> ch in s;
      if rest == -1 then -1
      else
        assert s[..rest + 1] == [s[0]] + s[1..][..rest];
        rest + 1
  }

  /** Where a Python slice bound `k` lands in a string of length `n`. */
  function Bound(n: nat, k: int): (b: nat)
    ensures b <= n
    ensures 0 <= k <= n ==> b == k
    ensures k < 0 && n + k >= 0 ==> b == n + k
  {
    if k >= 0 then (if k <= n then k else n)
    else if n + k >= 0 then n + k else 0
  }

  /** `s[:k]` */
  function SliceTo(s: string, k: int): string
  {
    s[..Bound(|s|, k)]
  }

  /** `s[k:]` */
  function SliceFrom(s: string, k: int): string
  {
    s[Bound(|s|, k)..]
  }

  /** The IP field: `line[: line.find("-") - 1]`. */
  function IpOf(line: string): string
  {
    SliceTo(line, Find(line, '-') - 1)
  }

  /**
    * The IP stops one character before the first `-`; a `-` at the very
    * start gives a negative stop that drops the last character, and a line
    * without `-` loses its last two characters.
    */
  lemma IpOfCases(line: string)
    ensures var p := Find(line, '-');
      (p >= 1 ==> IpOf(line) == line[..p - 1]) &&
      (p == 0 ==> IpOf(line) == line[..|line| - 1]) &&
      (p == -1 && |line| >= 2 ==> IpOf(line) == line[..|line| - 2]) &&
      (p == -1 && |line| < 2 ==> IpOf(line) == [])
  {
  }

  /** `s.split(ch)`: the pieces between occurrences of `ch`, always at least one. */
  function Split(s: string, ch: char): (parts: seq<string>)
    ensures |parts| == Occurrences(s, ch) + 1
    ensures forall i :: 0 <= i < |parts| ==> ch !in parts[i]
  {
    if s == [] then [[]]
    else
      var rest := Split(s[1..], ch);
      if s[0] == ch then [[]] + rest
      else [[s[0]] + rest[0]] + rest[1..]
  }

  function Occurrences(s: string, ch: char): nat
  {
    if s == [] then 0 else (if s[0] == ch then 1 else 0) + Occurrences(s[1..], ch)
  }

  /** The inverse of `Split`: the pieces glued back with `ch` between them. */
  function Join(parts: seq<string>, ch: char): string
    requires |parts| > 0
  {
    if |parts| == 1 then parts[0] else parts[0] + [ch] + Join(parts[1..], ch)
  }

  lemma {:induction false} SplitJoin(s: string, ch: char)
    ensures Join(Split(s, ch), ch) == s
  {
    if s != [] {
      var rest := Split(s[1..], ch);
      SplitJoin(s[1..], ch);
      if s[0] == ch {
        assert Split(s, ch)[1..] == rest;
      } else {
        var parts := Split(s, ch);
        assert parts[1..] == rest[1..];
        if |rest| == 1 {
          assert parts == [[s[0]] + rest[0]];
        } else {
          assert Join(rest, ch) == rest[0] + [ch] + Join(rest[1..], ch);
        }
      }
    }
  }

  /** The User-Agent field: piece 5 of `line.split('"')`, or IndexError. */
  function UaOf(line: string): (r: Result<string>)
    ensures r.Err? <==> Occurrences(line, '"') < 5
    ensures r.Err? ==> r.error == IndexError
    ensures r.Ok? ==> '"' !in r.value
  {
    var parts := Split(line, '"');
    if 5 < |parts| then Ok(parts[5]) else Err(IndexError)
  }

  /** dict_to_df's split of a client key at its first `:`. */
  function SplitKey(client: string): (string, string)
  {
    var d := Find(client, ':');
    (SliceTo(client, d), SliceFrom(client, d + 1))
  }

  /** Splitting `"{ip}:{ua}"` recovers ip and ua whenever ip contains no `:`. */
  lemma SplitKeyRoundTrip(ip: string, ua: string)
    requires ':' !in ip
    ensures SplitKey(ip + ":" + ua) == (ip, ua)
  {
    var c := ip + ":" + ua;
    assert c[|ip|] == ':' && c[..|ip|] == ip;
    assert Find(c, ':') == |ip|;
    assert c[|ip| + 1..] == ua;
  }

  /** Different keys that both contain `:` never split to the same pair. */
  lemma SplitKeyInjective(c1: string, c2: string)
    requires ':' in c1 && ':' in c2 && SplitKey(c1) == SplitKey(c2)
    ensures c1 == c2
  {
    SplitKeyRejoin(c1);
    SplitKeyRejoin(c2);
  }

  lemma SplitKeyRejoin(c: string)
    requires ':' in c
    ensures SplitKey(c).0 + ":" + SplitKey(c).1 == c
    ensures ':' !in SplitKey(c).0
  {
    var d := Find(c, ':');
    assert c == c[..d] + [c[d]] + c[d + 1..];
  }
}
