/** Decimal numbers and "host:port" texts, as the Go standard library reads and
    writes them: strconv.Itoa and strconv.Atoi, net.JoinHostPort and
    net.SplitHostPort. */
module HostPort {
  import opened Options

  // ----- numbers -----

  function Digit(d: nat): char
    requires d < 10
  {
    "0123456789"[d]
  }

  function Itoa(n: nat): string {
    if n < 10 then [Digit(n)] else Itoa(n / 10) + [Digit(n % 10)]
  }

  predicate AllDigits(s: string) {
    forall i :: 0 <= i < |s| ==> '0' <= s[i] <= '9'
  }

  function Value(s: string): nat
    requires AllDigits(s)
  {
    if s == [] then 0 else 10 * Value(s[..|s| - 1]) + (s[|s| - 1] as int - '0' as int)
  }

  /** An optional sign, then digits. A number too wide for the machine is an
      error there; here it is a number no list is long enough for. */
  function Atoi(s: string): Option<int> {
    var negative := s != [] && s[0] == '-';
    var digits := if negative || (s != [] && s[0] == '+') then s[1..] else s;
    if digits == [] || !AllDigits(digits) then None
    else
      var v: int := Value(digits);
      Some(if negative then -v else v)
  }

  lemma {:induction false} ItoaDigits(n: nat)
    ensures Itoa(n) != [] && AllDigits(Itoa(n)) && Value(Itoa(n)) == n
  {
    if n >= 10 {
      ItoaDigits(n / 10);
      MoreDigits(Itoa(n / 10), n % 10);
    }
  }

  lemma MoreDigits(s: string, d: nat)
    requires AllDigits(s) && d < 10
    ensures AllDigits(s + [Digit(d)]) && Value(s + [Digit(d)]) == 10 * Value(s) + d
  {
    assert (s + [Digit(d)])[..|s|] == s;
    assert Digit(d) as int - '0' as int == d;
  }

  lemma AtoiItoa(n: nat)
    ensures Atoi(Itoa(n)) == Some(n)
  {
    ItoaDigits(n);
    assert '0' <= Itoa(n)[0] <= '9';
  }

  /** Ones last, the tens and what is above them before. */
  lemma ItoaPlaces(n: nat)
    ensures var t := Itoa(n);
            && t[|t| - 1] as int == '0' as int + n % 10
            && (if n < 10 then |t| == 1 else t[..|t| - 1] == Itoa(n / 10))
  {
    assert Digit(n % 10) as int == '0' as int + n % 10;
    if n >= 10 {
      assert (Itoa(n / 10) + [Digit(n % 10)])[..|Itoa(n / 10)|] == Itoa(n / 10);
    }
  }

  /** A sign is read, too. */
  lemma AtoiSigned(n: nat)
    ensures Atoi("+" + Itoa(n)) == Some(n)
    ensures Atoi("-" + Itoa(n)).Some? && Atoi("-" + Itoa(n)).value + n == 0
  {
    ItoaDigits(n);
    hide Itoa;
    assert ("+" + Itoa(n))[1..] == Itoa(n) && ("-" + Itoa(n))[1..] == Itoa(n);
  }

  // ----- host and port -----

  function LastColon(s: string): (r: int)
    ensures -1 <= r < |s| && (r >= 0 ==> s[r] == ':') && forall i :: r < i < |s| ==> s[i] != ':'
  {
    if s == [] then -1 else if s[|s| - 1] == ':' then |s| - 1 else LastColon(s[..|s| - 1])
  }

  /** The first position of c, or -1. */
  function IndexOf(s: string, c: char): (r: int)
    ensures -1 <= r < |s| && (r >= 0 ==> s[r] == c && c !in s[..r]) && (r < 0 ==> c !in s)
  {
    if s == [] then -1
    else if s[0] == c then 0
    else
      assert s == [s[0]] + s[1..];
      var r := IndexOf(s[1..], c);
      assert r >= 0 ==> s[..r + 1] == [s[0]] + s[1..][..r];
      if r < 0 then -1 else r + 1
  }

  function JoinHostPort(host: string, port: string): string {
    if ':' in host then "[" + host + "]:" + port else host + ":" + port
  }

  /** The parts of a "host:port" text; None where splitting is an error. */
  function SplitHostPort(s: string): Option<(string, string)> {
    var i := LastColon(s);
    if i < 0 then None
    else if s[0] == '[' then
      var end := IndexOf(s, ']');
      if end < 0 || end + 1 != i || '[' in s[1..] || ']' in s[end + 1..] then None
      else Some((s[1..end], s[i + 1..]))
    else if ':' in s[..i] || '[' in s || ']' in s then None
    else Some((s[..i], s[i + 1..]))
  }

  function SplitPort(s: string): Option<string> {
    match SplitHostPort(s)
    case Some(parts) => Some(parts.1)
    case None => None
  }

  predicate NoBrackets(s: string) {
    '[' !in s && ']' !in s
  }

  /** What an address prints as: no brackets, and no colon or several. */
  predicate HostText(s: string) {
    NoBrackets(s) && (LastColon(s) < 0 || ':' in s[..LastColon(s)])
  }

  predicate PortText(s: string) {
    NoBrackets(s) && ':' !in s
  }

  /** s is host and port joined by a colon, the host perhaps in brackets, as
      it must be if it holds a colon itself. */
  predicate Joins(s: string, host: string, port: string) {
    NoBrackets(host) && PortText(port) &&
    ((':' !in host && s == host + ":" + port) || s == "[" + host + "]:" + port)
  }

  /** Splitting finds such parts exactly where there are some. */
  lemma SplitMeaning(s: string, host: string, port: string)
    ensures SplitHostPort(s) == Some((host, port)) <==> Joins(s, host, port)
  {
    if SplitHostPort(s) == Some((host, port)) {
      SplitJoins(s);
    }
    if Joins(s, host, port) {
      JoinsSplit(s, host, port);
    }
  }

  lemma SplitJoins(s: string)
    ensures SplitHostPort(s).Some? ==> Joins(s, SplitHostPort(s).value.0, SplitHostPort(s).value.1)
  {
    var i := LastColon(s);
    if SplitHostPort(s).Some? {
      var parts := SplitHostPort(s).value;
      var host, port := parts.0, parts.1;
      hide SplitHostPort, LastColon, IndexOf, Joins;
      assert port == s[i + 1..];
      forall c | c in port ensures c in s && c != ':' {
        var k :| 0 <= k < |port| && port[k] == c;
        assert c == s[i + 1 + k];
      }
      if s[0] == '[' {
        Bracketed(s, host, port);
      } else {
        Unbracketed(s, host, port);
      }
    }
  }

  lemma Unbracketed(s: string, host: string, port: string)
    requires SplitHostPort(s) == Some((host, port)) && s[0] != '[' && ':' !in port
    requires forall c :: c in port ==> c in s
    ensures Joins(s, host, port)
  {
    var i := LastColon(s);
    assert s == s[..i] + ":" + s[i + 1..];
    assert forall c :: c in host ==> c in s;
  }

  lemma Bracketed(s: string, host: string, port: string)
    requires SplitHostPort(s) == Some((host, port)) && s[0] == '[' && ':' !in port
    ensures Joins(s, host, port)
  {
    var i, end := LastColon(s), IndexOf(s, ']');
    assert s == "[" + s[1..end] + "]:" + s[i + 1..];
    forall k | 0 <= k < |host| ensures host[k] != '[' && host[k] != ']' {
      assert host[k] == s[1..][k] && host[k] == s[..end][k + 1];
    }
    forall k | 0 <= k < |port| ensures port[k] != '[' && port[k] != ']' {
      assert port[k] == s[1..][i + k] && port[k] == s[end + 1..][k + 1];
    }
  }

  lemma SplitPortText(s: string)
    ensures SplitPort(s).Some? ==> PortText(SplitPort(s).value)
  {
    SplitJoins(s);
  }

  lemma NoPortInAddress(s: string)
    requires HostText(s)
    ensures SplitPort(s) == None
  {
    if s != [] {
      assert s[0] in s;
    }
  }

  lemma LastColonAt(s: string, i: nat)
    requires i < |s| && s[i] == ':' && ':' !in s[i + 1..]
    ensures LastColon(s) == i
  {
    assert forall k :: i < k < |s| ==> s[k] == s[i + 1..][k - i - 1];
  }

  lemma IndexOfAt(s: string, c: char, i: nat)
    requires i < |s| && s[i] == c && c !in s[..i]
    ensures IndexOf(s, c) == i
  {
    assert forall k :: 0 <= k < i ==> s[k] == s[..i][k];
    assert forall r :: i < r <= |s| ==> s[..r][i] == s[i];
  }

  lemma JoinsSplit(s: string, host: string, port: string)
    requires Joins(s, host, port)
    ensures SplitHostPort(s) == Some((host, port))
  {
    hide LastColon, IndexOf;
    if s == "[" + host + "]:" + port {
      var i := |host| + 2;
      assert s[i] == ':' && s[i + 1..] == port;
      LastColonAt(s, i);
      assert s[..i - 1] == "[" + host;
      IndexOfAt(s, ']', i - 1);
      assert s[1..] == host + "]:" + port && s[1..i - 1] == host;
      assert s[i - 1 + 1..] == ":" + port;
    } else {
      var i := |host|;
      assert s[i] == ':' && s[i + 1..] == port && s[..i] == host;
      LastColonAt(s, i);
      if host != [] {
        assert s[0] == host[0] && host[0] in host;
      }
    }
  }

  /** Joining and splitting give host and port back. */
  lemma SplitJoined(host: string, port: string)
    requires NoBrackets(host) && PortText(port)
    ensures SplitHostPort(JoinHostPort(host, port)) == Some((host, port))
    ensures SplitPort(JoinHostPort(host, port)) == Some(port)
  {
    JoinsSplit(JoinHostPort(host, port), host, port);
  }
}
