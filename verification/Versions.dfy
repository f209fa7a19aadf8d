/** Version strings: printing, parsing, and what client and server agree on. */
module Versions {
  import opened Options

  datatype Base = Plain9P2000 | Unix | Linux

  datatype Version = Version(base: Base, number: nat)

  const HIGHEST := 7
  const MAXIMUM := 4 * 1024 * 1024

  function BaseString(b: Base): string
  {
    match b
    case Plain9P2000 => "9P2000"
    case Unix => "9P2000.u"
    case Linux => "9P2000.L"
  }

  // ---- decimal numbers ----------------------------------------------------------------------

  function Digit(n: nat): char
    requires n < 10
  {
    "0123456789"[n]
  }

  function Decimal(n: nat): string
  {
    if n < 10 then [Digit(n)] else Decimal(n / 10) + [Digit(n % 10)]
  }

  predicate IsDigit(c: char)
  {
    '0' <= c <= '9'
  }

  function DigitValue(c: char): nat
    requires IsDigit(c)
  {
    (c as int) - ('0' as int)
  }

  /** ParseUint in base ten and 32 bits. */
  function ParseUint(s: string): Option<nat>
  {
    if s == [] || (exists c :: c in s && !IsDigit(c)) then None
    else if Value(s) >= 0x1_0000_0000 then None
    else Some(Value(s))
  }

  function Value(s: string): nat
    requires forall c | c in s :: IsDigit(c)
  {
    if s == [] then 0 else 10 * Value(s[..|s| - 1]) + DigitValue(s[|s| - 1])
  }

  lemma {:induction false} DecimalValue(n: nat)
    ensures Decimal(n) != [] && (forall c | c in Decimal(n) :: IsDigit(c)) && Value(Decimal(n)) == n
  {
    DigitIs(n % 10);
    if n >= 10 {
      DecimalValue(n / 10);
      var d := Decimal(n);
      assert d[..|d| - 1] == Decimal(n / 10) && d[|d| - 1] == Digit(n % 10);
    } else {
      assert Decimal(n)[..0] == [];
    }
  }

  lemma DigitIs(n: nat)
    requires n < 10
    ensures IsDigit(Digit(n)) && DigitValue(Digit(n)) == n
  {
  }

  // ---- printing and parsing --------------------------------------------------------------------

  function Print(v: Version): string
  {
    if v.number == 0 then BaseString(v.base) else "9P2000.L.Google." + Decimal(v.number)
  }

  /** strings.Split at a separator. */
  function Split(s: string, sep: char): (parts: seq<string>)
    ensures |parts| > 0
  {
    if s == [] then [""]
    else
      var rest := Split(s[1..], sep);
      if s[0] == sep then [""] + rest else [[s[0]] + rest[0]] + rest[1..]
  }

  function Parse(s: string): Option<Version>
  {
    if s == "9P2000.L" then Some(Version(Linux, 0))
    else if s == "9P2000.u" then Some(Version(Unix, 0))
    else if s == "9P2000" then Some(Version(Plain9P2000, 0))
    else
      var parts := Split(s, '.');
      if |parts| != 4 || parts[0] != "9P2000" || parts[1] != "L" || parts[2] != "Google" || parts[3] == "" then None
      else match ParseUint(parts[3])
        case None => None
        case Some(n) => Some(Version(Linux, n))
  }

  lemma {:induction false} SplitFirst(a: string, b: string, sep: char)
    requires sep !in a
    ensures Split(a + [sep] + b, sep) == [a] + Split(b, sep)
  {
    var s := a + [sep] + b;
    if a == [] {
      assert s[1..] == b;
    } else {
      assert s[1..] == a[1..] + [sep] + b;
      SplitFirst(a[1..], b, sep);
      assert [s[0]] + a[1..] == a;
    }
  }

  lemma {:induction false} SplitNone(a: string, sep: char)
    requires sep !in a
    ensures Split(a, sep) == [a]
  {
    if a != [] {
      SplitNone(a[1..], sep);
      assert [a[0]] + a[1..] == a;
    }
  }

  lemma SplitFour(d: string)
    requires '.' !in d
    ensures Split("9P2000.L.Google." + d, '.') == ["9P2000", "L", "Google", d]
  {
    hide Split;
    SplitNone(d, '.');
    SplitFirst("Google", d, '.');
    SplitFirst("L", "Google" + "." + d, '.');
    SplitFirst("9P2000", "L" + "." + ("Google" + "." + d), '.');
    assert "9P2000.L.Google." + d == "9P2000" + "." + ("L" + "." + ("Google" + "." + d));
  }

  /** Every 32-bit version survives printing and parsing. */
  lemma RoundTrip(n: nat)
    requires n < 0x1_0000_0000
    ensures Parse(Print(Version(Linux, n))) == Some(Version(Linux, n))
  {
    if n > 0 {
      var d, s := Decimal(n), Print(Version(Linux, n));
      DecimalValue(n);
      assert !IsDigit('.');
      assert '.' !in d;
      SplitFour(d);
      assert |s| > 16;
    }
  }

  // ---- negotiation -----------------------------------------------------------------------------------

  /** The server's answer: its own limits applied, or "unknown" with a message size of zero. */
  function Answer(msize: nat, version: string): (nat, string)
  {
    if msize == 0 then (0, "unknown")
    else
      match Parse(version)
      case None => (0, "unknown")
      case Some(v) =>
        if !v.base.Linux? then (0, "unknown")
        else
          var number := if v.number > HIGHEST then HIGHEST else v.number;
          (if msize > MAXIMUM then MAXIMUM else msize, Print(Version(Linux, number)))
  }

  /** A client that asks for any 32-bit version gets that version or the server's highest, and both sides then hold
      the same one. */
  lemma Agreed(msize: nat, requested: nat)
    requires 0 < msize < 0x1_0000_0000 && requested < 0x1_0000_0000
    ensures var (m, s) := Answer(msize, Print(Version(Linux, requested)));
            && m == Min(msize, MAXIMUM)
            && Parse(s) == Some(Version(Linux, if requested > HIGHEST then HIGHEST else requested))
  {
    RoundTrip(requested);
    RoundTrip(if requested > HIGHEST then HIGHEST else requested);
  }

  function Joined(parts: seq<string>, sep: char): string
    requires parts != []
  {
    if |parts| == 1 then parts[0] else parts[0] + [sep] + Joined(parts[1..], sep)
  }

  lemma {:induction false} SplitJoined(s: string, sep: char)
    ensures Joined(Split(s, sep), sep) == s
  {
    if s != [] {
      var rest := Split(s[1..], sep);
      SplitJoined(s[1..], sep);
      assert [s[0]] + s[1..] == s;
      if s[0] == sep {
        assert ([""] + rest)[1..] == rest;
      } else {
        assert ([[s[0]] + rest[0]] + rest[1..])[1..] == rest[1..];
      }
    }
  }

  lemma JoinedFour(a: string, b: string, c: string, d: string, sep: char)
    ensures Joined([a, b, c, d], sep) == a + [sep] + (b + [sep] + (c + [sep] + d))
  {
    assert [a, b, c, d][1..] == [b, c, d] && [b, c, d][1..] == [c, d] && [c, d][1..] == [d];
    assert Joined([d], sep) == d;
    assert Joined([c, d], sep) == c + [sep] + d;
    assert Joined([b, c, d], sep) == b + [sep] + (c + [sep] + d);
  }

  /** A version the server speaks: the plain name, or the name with a decimal number of 32 bits. */
  ghost predicate Spoken(version: string)
  {
    version == "9P2000.L" || exists d :: version == "9P2000.L.Google." + d && ParseUint(d).Some?
  }

  lemma SpokenParses(version: string)
    ensures Spoken(version) <==> Parse(version).Some? && Parse(version).value.base.Linux?
  {
    hide Split, Joined, ParseUint;
    if version != "9P2000.L" {
      if d :| version == "9P2000.L.Google." + d && ParseUint(d).Some? {
        DigitsOnly(d);
        SplitFour(d);
        assert |version| > 16;
      }
      if Parse(version).Some? && Parse(version).value.base.Linux? {
        var parts := Split(version, '.');
        SplitJoined(version, '.');
        JoinedFour(parts[0], parts[1], parts[2], parts[3], '.');
        assert parts == [parts[0], parts[1], parts[2], parts[3]];
        assert version == "9P2000.L.Google." + parts[3];
      }
    }
  }

  lemma DigitsOnly(d: string)
    requires ParseUint(d).Some?
    ensures '.' !in d && d != ""
  {
  }

  /** The server answers "unknown", with no message size, exactly to a size of zero or a version it does not speak;
      9P2000 and 9P2000.u are such. */
  lemma UnknownAnswered(msize: nat, version: string)
    ensures Answer(msize, version) == (0, "unknown") <==> msize == 0 || !Spoken(version)
    ensures Answer(msize, "9P2000") == (0, "unknown") && Answer(msize, "9P2000.u") == (0, "unknown")
  {
    hide Parse, Print, Spoken;
    SpokenParses(version);
    OtherBases();
  }

  lemma OtherBases()
    ensures Parse("9P2000") == Some(Version(Plain9P2000, 0)) && Parse("9P2000.u") == Some(Version(Unix, 0))
  {
    hide Split;
  }

  /** A client refuses an answer it cannot parse, such as "unknown". */
  lemma UnknownRefused()
    ensures Parse("unknown") == None
  {
    SplitNone("unknown", '.');
  }

  /** What a server can say to a version request. */
  datatype Reply = Again | Refuse(errno: nat) | Offer(version: string)

  datatype Outcome = Settled(number: nat) | Exhausted | Failed(errno: nat) | BadVersion

  /** NewClient's loop: ask for one version less each time the server says to try again. */
  method Negotiate(start: nat, replies: nat -> Reply) returns (o: Outcome, asked: nat)
    ensures asked <= start && forall v | asked < v <= start :: replies(v).Again?
    ensures o == (match replies(asked)
                  case Again => Exhausted
                  case Refuse(e) => Failed(e)
                  case Offer(s) => if Parse(s).Some? && Parse(s).value.base.Linux? then Settled(Parse(s).value.number)
                    else BadVersion)
    ensures o.Exhausted? <==> forall v | 0 <= v <= start :: replies(v).Again?
  {
    asked := start;
    while replies(asked).Again?
      invariant asked <= start && forall v | asked < v <= start :: replies(v).Again?
      decreases asked
    {
      if asked == 0 { return Exhausted, 0; }
      asked := asked - 1;
    }
    match replies(asked) {
      case Refuse(e) => o := Failed(e);
      case Offer(s) =>
        var v := Parse(s);
        o := if v.Some? && v.value.base.Linux? then Settled(v.value.number) else BadVersion;
    }
  }
}
