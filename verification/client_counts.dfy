/**
  * The two client counts of analyse_clients.py (repeated as the first two
  * functions of parse.py): how many distinct IP fields the first `lines`
  * reads of the log show, and how many of those IPs come with more than one
  * User-Agent. The log is given as the lines `readline` returns, so a read
  * past the last line gives the empty string.
  */
module ClientCounts {
  import opened Common
  import opened LineFields

  /** The `k`-th call of `log_file.readline()`: the `k`-th line, or "" past the end. */
  function ReadLine(log: seq<string>, k: nat): string
  {
    if k < |log| then log[k] else ""
  }

  /** The IP fields of the first `n` reads (none when `n` is not positive). */
  function IpsRead(log: seq<string>, n: int): set<string>
  {
    set k: nat | k < n :: IpOf(ReadLine(log, k))
  }

  /** The User-Agent fields read with IP `ip` in the first `n` reads. */
  function UasRead(log: seq<string>, n: int, ip: string): set<string>
  {
    set k: nat | k < n && IpOf(ReadLine(log, k)) == ip && UaOf(ReadLine(log, k)).Ok? :: UaOf(ReadLine(log, k)).value
  }

  /** Whether one of the first `n` reads has fewer than five double quotes, so no field 5. */
  predicate UaMissing(log: seq<string>, n: int)
  {
    exists k: nat | k < n :: UaOf(ReadLine(log, k)).Err?
  }

  /** The IPs of the first `n` reads seen with at least two distinct User-Agents. */
  function MultiUa(log: seq<string>, n: int): set<string>
  {
    set ip | ip in IpsRead(log, n) && |UasRead(log, n, ip)| > 1
  }

  /** analyse_clients.py:35: `sum(len(ua) > 1 for ua in ip_to_ua.values())`. */
  function MultiUaCount(ipToUa: map<string, set<string>>): (n: nat)
    ensures n <= |ipToUa|
  {
    var multi := set ip | ip in ipToUa && |ipToUa[ip]| > 1;
    SubsetSize(multi, ipToUa.Keys);
    |multi|
  }

  // ---------------------------------------------------------------------------
  // One more read
  // ---------------------------------------------------------------------------

  /** Without a read there is no IP and no missing field. */
  lemma NothingRead(log: seq<string>, n: int)
    requires n <= 0
    ensures IpsRead(log, n) == {} && !UaMissing(log, n)
  {
  }

  lemma IpsReadSnoc(log: seq<string>, n: nat)
    ensures IpsRead(log, n + 1) == IpsRead(log, n) + {IpOf(ReadLine(log, n))}
  {
    var x := IpOf(ReadLine(log, n));
    assert x in IpsRead(log, n + 1);
  }

  /** A read with a User-Agent adds it to its own IP's set only. */
  lemma UasReadSnoc(log: seq<string>, n: nat, ip: string)
    requires UaOf(ReadLine(log, n)).Ok?
    ensures var line := ReadLine(log, n);
      UasRead(log, n + 1, ip) == UasRead(log, n, ip) + (if IpOf(line) == ip then {UaOf(line).value} else {})
  {
    var line := ReadLine(log, n);
    if IpOf(line) == ip {
      assert UaOf(line).value in UasRead(log, n + 1, ip);
    }
  }

  lemma UaMissingSnoc(log: seq<string>, n: nat)
    ensures UaMissing(log, n + 1) <==> UaMissing(log, n) || UaOf(ReadLine(log, n)).Err?
  {
    if UaMissing(log, n + 1) && !UaOf(ReadLine(log, n)).Err? {
      var k: nat :| k < n + 1 && UaOf(ReadLine(log, k)).Err?;
      assert k < n;
    }
  }

  // ---------------------------------------------------------------------------
  // The two loops
  // ---------------------------------------------------------------------------

  /**
    * analyse_clients.py:1-14 (and parse.py:6-13): the IP field of each of
    * `lines` reads goes into a set, whose size is returned.
    */
  method UniqueIp(log: seq<string>, lines: int) returns (n: nat)
    ensures n == |IpsRead(log, lines)|
  {
    var ips: set<string> := {};
    var i := 0;
    while i < lines
      invariant 0 <= i <= if lines > 0 then lines else 0
      invariant ips == IpsRead(log, i)
    {
      var line := ReadLine(log, i);
      var ip := IpOf(line);
      ips := ips + {ip};
      IpsReadSnoc(log, i);
      i := i + 1;
    }
    if lines <= 0 {
      NothingRead(log, lines);
      NothingRead(log, i);
    }
    n := |ips|;
  }

  /**
    * analyse_clients.py:17-35 (and parse.py:16-30): each read adds its
    * User-Agent to the set of its IP; a read without field 5 raises
    * IndexError before anything is added. The result counts the IPs with
    * more than one User-Agent.
    */
  method IpWithMultipleUa(log: seq<string>, lines: int) returns (r: Result<nat>)
    ensures r.Err? <==> UaMissing(log, lines)
    ensures r.Err? ==> r.error == IndexError
    ensures r.Ok? ==> r.value == |MultiUa(log, lines)|
  {
    hide IpsRead, UasRead, UaMissing, MultiUa, MultiUaCount, IpOf, UaOf, ReadLine;
    var ipToUa: map<string, set<string>> := map[];
    var i := 0;
    NothingRead(log, 0);
    while i < lines
      invariant 0 <= i <= if lines > 0 then lines else 0
      invariant ipToUa.Keys == IpsRead(log, i)
      invariant forall ip :: ip in ipToUa ==> ipToUa[ip] == UasRead(log, i, ip)
      invariant !UaMissing(log, i)
    {
      var line := ReadLine(log, i);
      var ip := IpOf(line);
      var ua := UaOf(line);
      UaMissingSnoc(log, i);
      if ua.Err? {
        assert UaMissing(log, i + 1);
        MissingGrows(log, i + 1, lines);
        return Err(IndexError);
      }
      IpsReadSnoc(log, i);
      forall d ensures UasRead(log, i + 1, d) == UasRead(log, i, d) + (if ip == d then {ua.value} else {}) {
        UasReadSnoc(log, i, d);
      }
      if ip !in ipToUa {
        UasReadNoIp(log, i, ip);
        ipToUa := ipToUa[ip := {}];
      }
      ipToUa := ipToUa[ip := ipToUa[ip] + {ua.value}];
      i := i + 1;
    }
    if lines <= 0 {
      NothingRead(log, lines);
    }
    MultiUaOfMap(log, lines, i, ipToUa);
    r := Ok(MultiUaCount(ipToUa));
  }

  lemma MissingGrows(log: seq<string>, n: int, m: int)
    requires UaMissing(log, n) && n <= m
    ensures UaMissing(log, m)
  {
  }

  /** An IP not read so far has no User-Agent so far. */
  lemma UasReadNoIp(log: seq<string>, n: nat, ip: string)
    requires ip !in IpsRead(log, n)
    ensures UasRead(log, n, ip) == {}
  {
    forall k: nat | k < n ensures IpOf(ReadLine(log, k)) != ip {
      assert IpOf(ReadLine(log, k)) in IpsRead(log, n);
    }
  }

  /** The count over the filled dictionary is the number of IPs with several User-Agents. */
  lemma MultiUaOfMap(log: seq<string>, lines: int, i: nat, ipToUa: map<string, set<string>>)
    requires i == lines || (lines <= 0 && i == 0)
    requires ipToUa.Keys == IpsRead(log, i)
    requires forall ip :: ip in ipToUa ==> ipToUa[ip] == UasRead(log, i, ip)
    ensures MultiUaCount(ipToUa) == |MultiUa(log, lines)|
  {
    if lines <= 0 {
      NothingRead(log, lines);
      NothingRead(log, i);
    }
    assert (set ip | ip in ipToUa && |ipToUa[ip]| > 1) == MultiUa(log, lines);
  }

  // ---------------------------------------------------------------------------
  // What the counts promise
  // ---------------------------------------------------------------------------

  lemma SubsetSize(a: set<string>, b: set<string>)
    requires a <= b
    ensures |a| <= |b|
  {
    assert b == a + (b - a);
  }

  /** At most one new IP per read. */
  lemma {:induction false} IpsReadSize(log: seq<string>, n: nat)
    ensures |IpsRead(log, n)| <= n
    ensures n > 0 ==> |IpsRead(log, n)| > 0
  {
    hide IpsRead;
    if n == 0 {
      NothingRead(log, 0);
    } else {
      IpsReadSize(log, n - 1);
      IpsReadSnoc(log, n - 1);
    }
  }

  /**
    * For the same log and the same number of reads:
    * 0 <= ip_with_multiple_ua <= unique_ip <= max(lines, 0), and at least one
    * IP is counted once a line is read.
    */
  lemma CountsBounded(log: seq<string>, lines: int)
    ensures |MultiUa(log, lines)| <= |IpsRead(log, lines)|
    ensures |IpsRead(log, lines)| <= if lines > 0 then lines else 0
    ensures lines > 0 ==> |IpsRead(log, lines)| >= 1
  {
    SubsetSize(MultiUa(log, lines), IpsRead(log, lines));
    if lines > 0 {
      IpsReadSize(log, lines);
    } else {
      NothingRead(log, lines);
    }
  }

  /**
    * Reading past the end of the log: unique_ip counts the empty IP of the
    * empty read, and ip_with_multiple_ua raises IndexError.
    */
  lemma PastEnd(log: seq<string>, lines: int)
    requires lines > |log|
    ensures "" in IpsRead(log, lines)
    ensures UaMissing(log, lines)
  {
    var k: nat := |log|;
    assert ReadLine(log, k) == "";
    assert Split("", '"') == [[]];
    assert IpOf(ReadLine(log, k)) in IpsRead(log, lines);
  }

  /** A log whose every read line has field 5 makes ip_with_multiple_ua return a count. */
  lemma AllFieldsPresent(log: seq<string>, lines: int)
    requires lines <= |log|
    requires forall k :: 0 <= k < |log| ==> Occurrences(log[k], '"') >= 5
    ensures !UaMissing(log, lines)
  {
    forall k: nat | k < lines ensures UaOf(ReadLine(log, k)).Ok? {
      assert ReadLine(log, k) == log[k];
    }
  }
}
