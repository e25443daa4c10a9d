/** When a subscriber's list cannot tell two publications apart. */
module UrlLaws {
  import opened Utf8
  import opened Literals
  import opened NodeInfoCodec
  import opened Rosters

  const COLON: CodePoint := 0x3A
  const MINUS: CodePoint := 0x2D

  lemma {:induction false} DecimalHasNoColon(n: int)
    ensures COLON !in Decimal(n) && Decimal(n) != [] && (n >= 0 ==> MINUS !in Decimal(n))
    decreases if n < 0 then 1 - n else n
  {
    if n < 0 {
      DecimalHasNoColon(-n);
      assert Literal("-") == [MINUS];
    } else if n >= 10 {
      DecimalHasNoColon(n / 10);
    }
  }

  lemma SameEnd<T>(a: seq<T>, x: T, b: seq<T>, y: T)
    requires a + [x] == b + [y]
    ensures a == b && x == y
  {
    assert (a + [x])[..|a|] == a && (b + [y])[..|b|] == b;
    assert (a + [x])[|a|] == x && (b + [y])[|b|] == y;
  }

  /** An integer is written in one way only. */
  lemma {:induction false} DecimalInjective(m: int, n: int)
    requires Decimal(m) == Decimal(n)
    ensures m == n
    decreases if m < 0 then 1 - m else m
  {
    DecimalHasNoColon(m);
    DecimalHasNoColon(n);
    assert Literal("-") == [MINUS];
    if m < 0 || n < 0 {
      assert (m < 0 ==> Decimal(m)[0] == MINUS) && (n < 0 ==> Decimal(n)[0] == MINUS);
      assert m < 0 && n < 0;
      assert Decimal(m)[1..] == Decimal(-m) && Decimal(n)[1..] == Decimal(-n);
      DecimalInjective(-m, -n);
    } else if m < 10 && n < 10 {
    } else {
      DigitsBefore(m);
      DigitsBefore(n);
      assert m >= 10 && n >= 10;
      SameEnd(Decimal(m / 10), 0x30 + m % 10, Decimal(n / 10), 0x30 + n % 10);
      DecimalInjective(m / 10, n / 10);
    }
  }

  lemma DigitsBefore(n: nat)
    ensures if n < 10 then |Decimal(n)| == 1 else |Decimal(n)| >= 2
  {
    if n >= 10 {
      DecimalHasNoColon(n / 10);
    }
  }

  /** The last colon splits a text in one way. */
  lemma LastColonSplits(a: Text, d: Text, b: Text, e: Text)
    requires a + [COLON] + d == b + [COLON] + e && COLON !in d && COLON !in e
    ensures a == b && d == e
  {
    var u, v := a + [COLON] + d, b + [COLON] + e;
    assert u[|a|] == COLON && v[|b|] == COLON;
    assert forall i :: |a| < i < |u| ==> u[i] == d[i - |a| - 1];
    assert forall i :: |b| < i < |v| ==> v[i] == e[i - |b| - 1];
    assert |a| == |b|;
    assert u[..|a|] == a && v[..|b|] == b && u[|a| + 1..] == d && v[|b| + 1..] == e;
  }

  /** The number that digits write in base ten, the last one counting once. */
  function Reads(digits: seq<int>): int {
    if digits == [] then 0 else 10 * Reads(digits[..|digits| - 1]) + (digits[|digits| - 1] - 48)
  }

  /** A text of digits that writes `n`, without leading zeros. */
  predicate Writes(text: Text, n: nat) {
    && text != [] && (forall i :: 0 <= i < |text| ==> 48 <= text[i] <= 57)
    && (text[0] == 48 ==> |text| == 1) && Reads(text) == n
  }

  lemma {:induction false} DecimalWrites(n: nat)
    ensures Writes(Decimal(n), n)
  {
    if n < 10 {
      assert Reads([0x30 + n]) == 10 * Reads([]) + n;
    } else {
      DecimalWrites(n / 10);
      var front := Decimal(n / 10);
      assert Decimal(n)[..|front|] == front;
      assert |front| == 1 ==> Reads(front) == 10 * Reads(front[..0]) + (front[0] - 48);
    }
  }

  /** A negative integer is a minus sign and its magnitude. */
  lemma NegativeWrites(n: int)
    requires n < 0
    ensures Decimal(n) != [] && Decimal(n)[0] == 45 && Writes(Decimal(n)[1..], -n)
  {
    DecimalWrites(-n);
    assert Decimal(n)[1..] == Decimal(-n);
  }

  /** The URL of a publication, letter by letter: `tcp://`, the address, a colon, and its port in base ten. */
  lemma TcpUrlSpelled(p: SocketInfo) returns (port: Text)
    requires p.port >= 0
    ensures Writes(port, p.port)
    ensures TcpUrl(p) == [116, 99, 112, 58, 47, 47] + p.ip + [58] + port
  {
    DecimalWrites(p.port);
    port := Decimal(p.port);
  }

  /** `ipc:///tmp/zlc/`, the group's directory, a slash, the topic's name, and `/topic.sock`. */
  lemma IpcUrlSpelled(site: Site, name: Text)
    ensures IpcUrl(site, name) ==
      [105, 112, 99, 58, 47, 47, 47, 116, 109, 112, 47, 122, 108, 99, 47] + site.groupName + [47] + name
      + [47, 116, 111, 112, 105, 99, 46, 115, 111, 99, 107]
  {
  }

  lemma TcpUrlsExactly(p: SocketInfo, q: SocketInfo)
    ensures TcpUrl(p) == TcpUrl(q) <==> p.ip == q.ip && p.port == q.port
  {
    var scheme := Literal("tcp://");
    assert Literal(":") == [COLON];
    if TcpUrl(p) == TcpUrl(q) {
      DecimalHasNoColon(p.port);
      DecimalHasNoColon(q.port);
      hide Decimal, Literal;
      assert TcpUrl(p)[|scheme|..] == p.ip + [COLON] + Decimal(p.port);
      assert TcpUrl(q)[|scheme|..] == q.ip + [COLON] + Decimal(q.port);
      LastColonSplits(p.ip, Decimal(p.port), q.ip, Decimal(q.port));
      DecimalInjective(p.port, q.port);
    }
  }

  lemma IpcUrlsExactly(site: Site, a: Text, b: Text)
    ensures IpcUrl(site, a) == IpcUrl(site, b) <==> a == b
  {
    var front, end := Literal("ipc:///tmp/zlc/") + site.groupName + Literal("/"), Literal("/topic.sock");
    hide Literal;
    assert IpcUrl(site, a) == front + a + end && IpcUrl(site, b) == front + b + end;
    if IpcUrl(site, a) == IpcUrl(site, b) {
      assert |a| == |b|;
      assert IpcUrl(site, a)[|front|..|front| + |a|] == a && IpcUrl(site, b)[|front|..|front| + |b|] == b;
    }
  }

  lemma SchemesDiffer(site: Site, p: SocketInfo, name: Text)
    ensures TcpUrl(p) != IpcUrl(site, name)
  {
    assert TcpUrl(p)[0] == 't' as int && IpcUrl(site, name)[0] == 'i' as int;
  }

  /** The publication is connected to over IPC. */
  predicate OverIpc(site: Site, p: SocketInfo, ipcExists: bool) {
    p.ip == site.localIp && ipcExists
  }

  /**
   Two publications get one URL, and so one entry in a list, if and only if both go over IPC and have one
   name, whatever their ports, or both go over TCP and have one address and port.
   */
  lemma OneUrlExactly(site: Site, p: SocketInfo, a: bool, q: SocketInfo, b: bool)
    ensures ConnectUrl(site, p, a) == ConnectUrl(site, q, b) <==>
      || (OverIpc(site, p, a) && OverIpc(site, q, b) && p.name == q.name)
      || (!OverIpc(site, p, a) && !OverIpc(site, q, b) && p.ip == q.ip && p.port == q.port)
  {
    hide TcpUrl, IpcUrl;
    TcpUrlsExactly(p, q);
    IpcUrlsExactly(site, p.name, q.name);
    SchemesDiffer(site, p, q.name);
    SchemesDiffer(site, q, p.name);
  }
}
