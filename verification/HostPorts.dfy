/**
 * Host-ports: how Peer takes one apart and prints it again (tchannel/tornado/peer.py). Blanks,
 * signs and digits are those of ASCII.
 */
module HostPorts {
  import opened Wrappers

  // ---------- int ----------

  predicate IsDigit(c: char) { '0' <= c <= '9' }

  predicate AllDigits(t: string) { t != "" && forall i | 0 <= i < |t| :: IsDigit(t[i]) }

  predicate IsBlank(c: char) { c == ' ' || '\U{0009}' <= c <= '\U{000d}' }

  function DropLeft(t: string): string {
    if t != "" && IsBlank(t[0]) then DropLeft(t[1..]) else t
  }

  function DropRight(t: string): string {
    if t != "" && IsBlank(t[|t| - 1]) then DropRight(t[..|t| - 1]) else t
  }

  function Value(t: string): (n: nat)
    requires forall i | 0 <= i < |t| :: IsDigit(t[i])
  {
    if t == "" then 0 else
    assert IsDigit(t[|t| - 1]);
    10 * Value(t[..|t| - 1]) + (t[|t| - 1] as int - '0' as int)
  }

  /** `int`: blanks around it are dropped, and one sign may stand in front of the digits. */
  function ParseInt(text: string): Option<int> {
    var t := DropRight(DropLeft(text));
    if AllDigits(t) then Some(Value(t))
    else if t != "" && t[0] in {'+', '-'} && AllDigits(t[1..]) then
      var n: int := Value(t[1..]);
      Some(if t[0] == '-' then -n else n)
    else None
  }

  /** Digits are read in base ten. */
  lemma {:induction false} NextDigit(t: string, d: nat)
    requires (forall i | 0 <= i < |t| :: IsDigit(t[i])) && d < 10
    ensures Value(t + ["0123456789"[d]]) == 10 * Value(t) + d
  {
    var next := t + ["0123456789"[d]];
    assert next[..|t|] == t;
  }

  predicate AllBlank(t: string) { forall i | 0 <= i < |t| :: t[i] in {' ', '\t', '\n', '\U{000b}', '\U{000c}', '\r'} }

  lemma {:induction false} DropsLeft(left: string, t: string)
    requires AllBlank(left) && (t == "" || !IsBlank(t[0]))
    ensures DropLeft(left + t) == t
  {
    if left == "" {
      assert left + t == t;
    } else {
      assert IsBlank(left[0]) && (left + t)[1..] == left[1..] + t;
      DropsLeft(left[1..], t);
    }
  }

  lemma {:induction false} DropsRight(t: string, right: string)
    requires AllBlank(right) && (t == "" || !IsBlank(t[|t| - 1]))
    ensures DropRight(t + right) == t
  {
    if right == "" {
      assert t + right == t;
    } else {
      var last := |right| - 1;
      assert IsBlank(right[last]) && (t + right)[..|t| + last] == t + right[..last];
      DropsRight(t, right[..last]);
    }
  }

  lemma {:induction false} Dropped(t: string) returns (left: string, right: string)
    ensures AllBlank(left) && AllBlank(right) && t == left + DropRight(DropLeft(t)) + right
  {
    left := DroppedLeft(t);
    right := DroppedRight(DropLeft(t));
    assert left + (DropRight(DropLeft(t)) + right) == left + DropRight(DropLeft(t)) + right;
  }

  lemma {:induction false} DroppedLeft(t: string) returns (left: string)
    ensures AllBlank(left) && t == left + DropLeft(t)
  {
    if t != "" && IsBlank(t[0]) {
      left := DroppedLeft(t[1..]);
      left := [t[0]] + left;
      assert t == [t[0]] + t[1..];
    } else {
      left := "";
    }
  }

  lemma {:induction false} DroppedRight(t: string) returns (right: string)
    ensures AllBlank(right) && t == DropRight(t) + right
  {
    if t != "" && IsBlank(t[|t| - 1]) {
      right := DroppedRight(t[..|t| - 1]);
      right := right + [t[|t| - 1]];
      assert t == t[..|t| - 1] + [t[|t| - 1]];
    } else {
      right := "";
    }
  }

  /** Blanks, a sign or none, digits, blanks: such a text is a number, */
  lemma {:induction false} IntOf(left: string, sign: string, digits: string, right: string)
    requires AllBlank(left) && AllBlank(right) && sign in {"", "+", "-"} && AllDigits(digits)
    ensures ParseInt(left + sign + digits + right)
         == Some(if sign == "-" then -(Value(digits) as int) else Value(digits))
  {
    var t := sign + digits;
    assert left + sign + digits + right == left + (t + right);
    assert !IsBlank(t[0]) && !IsBlank(t[|t| - 1]) && (t + right)[0] == t[0];
    DropsLeft(left, t + right);
    DropsRight(t, right);
    if sign == "" { assert t == digits; } else { assert t[1..] == digits && !IsDigit(t[0]); }
  }

  /** and no other is. */
  lemma {:induction false} IntOnlyOf(text: string) returns (left: string, sign: string, digits: string, right: string)
    requires ParseInt(text).Some?
    ensures AllBlank(left) && AllBlank(right) && sign in {"", "+", "-"} && AllDigits(digits)
    ensures text == left + sign + digits + right
  {
    left, right := Dropped(text);
    var t := DropRight(DropLeft(text));
    if AllDigits(t) {
      sign, digits := "", t;
      assert left + sign == left;
    } else {
      sign, digits := t[..1], t[1..];
      assert sign + digits == t && sign == [t[0]];
      assert left + sign + digits + right == left + t + right;
    }
  }

  // ---------- %d ----------

  function Digit(d: nat): (c: char)
    requires d < 10
    ensures IsDigit(c) && c as int - '0' as int == d && (c == '0' <==> d == 0)
  {
    ('0' as int + d) as char
  }

  function ShowNat(n: nat): (t: string)
    ensures AllDigits(t)
  {
    if n < 10 then [Digit(n)] else ShowNat(n / 10) + [Digit(n % 10)]
  }

  function Show(n: int): string { if n < 0 then "-" + ShowNat(-n) else ShowNat(n) }

  lemma {:induction false} ShowNatRoundTrip(n: nat)
    ensures Value(ShowNat(n)) == n
    ensures ShowNat(n)[0] == '0' <==> n == 0
  {
    if n < 10 {
      assert ShowNat(n)[..0] == "";
    } else {
      ShowNatRoundTrip(n / 10);
      var t := ShowNat(n);
      assert t[..|t| - 1] == ShowNat(n / 10);
    }
  }

  lemma {:induction false} ShowRoundTrip(n: int)
    ensures ParseInt(Show(n)) == Some(n)
  {
    ShowNatRoundTrip(if n < 0 then -n else n);
    var t := Show(n);
    assert !IsBlank(t[0]) && !IsBlank(t[|t| - 1]);
    if n < 0 { assert t[1..] == ShowNat(-n); }
  }

  /** Digits that stand for the number as it is printed. */
  predicate PlainDigits(t: string) { AllDigits(t) && (t[0] == '0' ==> t == "0") }

  /** The text of a number as it is printed. */
  predicate PlainInt(t: string) {
    PlainDigits(t) || (t != "" && t[0] == '-' && PlainDigits(t[1..]) && t[1] != '0')
  }

  lemma {:induction false} PlainDigitsAreShown(t: string)
    requires PlainDigits(t)
    ensures ShowNat(Value(t)) == t && (Value(t) == 0 <==> t == "0")
  {
    var d := LastDigit(t);
    if |t| > 1 { PlainDigitsAreShown(t[..|t| - 1]); }
  }

  lemma {:induction false} LastDigit(t: string) returns (d: nat)
    requires AllDigits(t)
    ensures d < 10 && t == t[..|t| - 1] + [Digit(d)] && Value(t) == 10 * Value(t[..|t| - 1]) + d
    ensures |t| == 1 ==> t[..0] == "" && t == [Digit(d)] && Value(t) == d
  {
    var last := |t| - 1;
    assert IsDigit(t[last]);
    d := t[last] as int - '0' as int;
    assert ('0' as int + d) as char == t[last];
  }

  /** A text is what its number prints exactly when it has no blanks, no plus sign and no leading zeros. */
  lemma {:induction false} PrintsAsItself(t: string)
    ensures ParseInt(t).Some? && Show(ParseInt(t).value) == t <==> PlainInt(t)
  {
    if PlainInt(t) {
      assert !IsBlank(t[0]) && !IsBlank(t[|t| - 1]);
      if PlainDigits(t) {
        PlainDigitsAreShown(t);
      } else {
        PlainDigitsAreShown(t[1..]);
        assert t == "-" + t[1..];
      }
    } else if ParseInt(t).Some? {
      var n := ParseInt(t).value;
      ShowNatRoundTrip(if n < 0 then -n else n);
      if n < 0 { assert Show(n)[1..] == ShowNat(-n); }
      assert PlainInt(Show(n)) by {
        if n == 0 { assert ShowNat(0) == "0"; }
      }
    }
  }

  // ---------- host-ports ----------

  /** The length of the text in front of the last colon. */
  function HostLength(s: string): (n: Option<nat>)
    ensures n.Some? ==> n.value < |s|
  {
    if s == "" then None
    else if s[|s| - 1] == ':' then Some(|s| - 1)
    else HostLength(s[..|s| - 1])
  }

  datatype HostPort = HostPort(host: string, port: int) {
    /** `Peer.hostport`. */
    function Name(): string { host + ":" + Show(port) }

    predicate IsEphemeral() { host == "0.0.0.0" || port == 0 }
  }

  /** What the constructor of Peer makes of a host-port; None, where it raises. */
  function Parse(s: string): Option<HostPort> {
    match HostLength(s)
    case None => None
    case Some(n) =>
      match ParseInt(s[n + 1..])
      case None => None
      case Some(port) => Some(HostPort(s[..n], port))
  }

  /** How a host-port prints once it has been taken apart. */
  function Canonical(s: string): Option<string> {
    match Parse(s)
    case None => None
    case Some(hp) => Some(hp.Name())
  }

  lemma {:induction false} LastColon(host: string, port: string)
    requires forall i | 0 <= i < |port| :: port[i] != ':'
    ensures HostLength(host + ":" + port) == Some(|host|)
  {
    var s := host + ":" + port;
    if port == "" {
      assert s[|s| - 1] == ':';
    } else {
      var last := |port| - 1;
      LastColon(host, port[..last]);
      assert s[..|s| - 1] == host + ":" + port[..last];
      assert s[|s| - 1] == port[last];
    }
  }

  lemma {:induction false} LastColonSplits(s: string)
    ensures HostLength(s).Some? ==>
      var n := HostLength(s).value;
      s[n] == ':' && s == s[..n] + ":" + s[n + 1..] && forall i | n < i < |s| :: s[i] != ':'
  {
    if s != "" && s[|s| - 1] != ':' { LastColonSplits(s[..|s| - 1]); }
  }

  lemma {:induction false} NoColonIn(n: int)
    ensures forall i | 0 <= i < |Show(n)| :: Show(n)[i] != ':'
  {
  }

  /** What is printed is taken apart into what was printed. */
  lemma {:induction false} NameRoundTrip(hp: HostPort)
    ensures Parse(hp.Name()) == Some(hp)
  {
    NoColonIn(hp.port);
    LastColon(hp.host, Show(hp.port));
    ShowRoundTrip(hp.port);
    var s, n := hp.Name(), |hp.host|;
    assert s[..n] == hp.host && s[n + 1..] == Show(hp.port);
  }

  lemma {:induction false} EndsInZero(host: string, port: string)
    requires port != "" && forall i | 0 <= i < |port| :: port[i] != ':'
    ensures var name := host + ":" + port; name[|name| - 2..] == ":0" <==> port == "0"
  {
    var name, n := host + ":" + port, |port|;
    if n == 1 {
      assert name[|name| - 2..] == ":" + port && (":" + port)[1..] == port && ":0"[1..] == "0";
    } else {
      assert name[|name| - 2..][0] == port[n - 2];
    }
  }

  lemma {:induction false} StartsWithZeros(host: string, port: string)
    requires forall i | 0 <= i < |port| :: port[i] != ':'
    ensures var name := host + ":" + port;
            (|name| >= 8 && name[..8] == "0.0.0.0:" && forall i | 8 <= i < |name| :: name[i] != ':')
            <==> host == "0.0.0.0"
  {
    var name, n := host + ":" + port, |host|;
    assert name[n] == ':' && name[..n] == host;
    if n == 7 {
      assert |name| >= 8 && name[..8] == host + ":";
      assert (host + ":")[..7] == host && "0.0.0.0:"[..7] == "0.0.0.0";
      forall i | 8 <= i < |name| ensures name[i] != ':' { assert name[i] == port[i - 8]; }
    } else if n < 7 && |name| >= 8 {
      assert name[..8][7] == name[7] == port[6 - n];
    }
  }

  /** A peer is ephemeral exactly if its printed host-port ends with :0, or starts with 0.0.0.0 and its last colon. */
  lemma {:induction false} EphemeralByName(hp: HostPort)
    ensures var name := hp.Name();
            && |name| >= 2
            && (hp.IsEphemeral() <==>
                  || name[|name| - 2..] == ":0"
                  || (|name| >= 8 && name[..8] == "0.0.0.0:" && forall i | 8 <= i < |name| :: name[i] != ':'))
  {
    NoColonIn(hp.port);
    EndsInZero(hp.host, Show(hp.port));
    StartsWithZeros(hp.host, Show(hp.port));
    ShowRoundTrip(hp.port);
    ShowRoundTrip(0);
  }

  /** Printing once is enough. */
  lemma {:induction false} CanonicalIsStable(s: string)
    ensures Canonical(s).Some? ==> Canonical(Canonical(s).value) == Canonical(s)
  {
    match Parse(s)
    case None =>
    case Some(hp) => NameRoundTrip(hp);
  }

  /** A host-port prints as itself if and only if what follows its last colon is a number as it is printed. */
  lemma {:induction false} CanonicalExactly(s: string)
    ensures Canonical(s) == Some(s)
       <==> HostLength(s).Some? && PlainInt(s[HostLength(s).value + 1..])
  {
    LastColonSplits(s);
    if HostLength(s).Some? {
      var n := HostLength(s).value;
      var port := s[n + 1..];
      PrintsAsItself(port);
      if ParseInt(port).Some? {
        var shown := Show(ParseInt(port).value);
        assert Canonical(s) == Some(s[..n] + ":" + shown);
        assert (s[..n] + ":" + shown)[n + 1..] == shown;
      }
    }
  }

  /** A port with a leading zero loses it. */
  lemma {:induction false} LeadingZeroIsLost()
    ensures Canonical("h:01") == Some("h:1") && Canonical("h:1") == Some("h:1")
  {
    LastColon("h", "01");
    LastColon("h", "1");
    assert "h" + ":" + "01" == "h:01" && "h" + ":" + "1" == "h:1";
    assert "h:01"[2..] == "01" && "h:1"[2..] == "1" && "h:01"[..1] == "h" && "h:1"[..1] == "h";
    assert Value("0") == 0 && Value("01") == 1 && Value("1") == 1 by {
      assert "01"[..1] == "0" && "0"[..0] == "" && "1"[..0] == "";
    }
    assert ShowNat(1) == "1";
  }

  lemma {:induction false} PlainName(host: string, port: string)
    requires PlainInt(port) && forall i | 0 <= i < |port| :: port[i] != ':'
    ensures Canonical(host + ":" + port) == Some(host + ":" + port)
  {
    var s := host + ":" + port;
    LastColon(host, port);
    assert s[|host| + 1..] == port;
    CanonicalExactly(s);
  }

  lemma {:induction false} OneDigitPort(name: string, digit: char)
    requires name == "h:" + [digit] && IsDigit(digit)
    ensures Canonical(name) == Some(name)
  {
    var port := [digit];
    assert PlainInt(port);
    PlainName("h", port);
    assert "h" + ":" + port == name;
  }

  lemma {:induction false} PlainPorts()
    ensures Canonical("h:1") == Some("h:1") && Canonical("h:2") == Some("h:2")
  {
    OneDigitPort("h:1", '1');
    OneDigitPort("h:2", '2');
  }
}
