/** Web and app origins: parsing normalises host case and port notation, printing gives the
    normal form, and the two undo each other. */
module Origin {
  import opened Basics
  import opened Decimal

  datatype ParseError = Scheme | Host | Port

  datatype Origin = Https(host: string, port: Option<nat>) | App(id: string)

  // ---------- characters ----------

  predicate IsUpper(c: char) { 'A' <= c <= 'Z' }

  predicate IsAlphabetic(c: char) { 'a' <= c <= 'z' || IsUpper(c) }

  predicate IsAlphanumeric(c: char) { IsAlphabetic(c) || IsDigit(c) }

  function Lower(c: char): char {
    if IsUpper(c) then (c as int + 32) as char else c
  }

  function Lowercase(s: string): (r: string)
    ensures |r| == |s|
    ensures forall i :: 0 <= i < |s| ==> r[i] == Lower(s[i])
  {
    if s == "" then "" else [Lower(s[0])] + Lowercase(s[1..])
  }

  // ---------- numbers ----------

  predicate AllDigits(s: string) {
    forall i :: 0 <= i < |s| ==> IsDigit(s[i])
  }

  function NumberOf(s: string): nat
    requires AllDigits(s)
  {
    if s == "" then 0 else 10 * NumberOf(s[..|s| - 1]) + DigitValue(s[|s| - 1])
  }

  /** A 16-bit number: an optional plus sign and at least one digit. */
  function ParsePort(s: string): Option<nat> {
    var digits := if s != "" && s[0] == '+' then s[1..] else s;
    if digits != "" && AllDigits(digits) && NumberOf(digits) < 0x1_0000
    then Some(NumberOf(digits)) else None
  }

  // ---------- parsing and printing ----------

  function StripPrefix(s: string, prefix: string): Option<string> {
    if prefix <= s then Some(s[|prefix|..]) else None
  }

  function SplitOnce(s: string, c: char): (string, Option<string>) {
    if s == "" then ("", None)
    else if s[0] == c then ("", Some(s[1..]))
    else
      var (before, after) := SplitOnce(s[1..], c);
      ([s[0]] + before, after)
  }

  predicate IsHost(s: string) {
    && s != "" && IsAlphabetic(s[0])
    && (forall i :: 0 <= i < |s| ==> IsAlphanumeric(s[i]) || s[i] == '-' || s[i] == '.')
    && s[|s| - 1] != '.'
  }

  predicate IsAppId(s: string) {
    && s != "" && IsAlphabetic(s[0])
    && (forall i :: 0 <= i < |s| ==>
          IsAlphanumeric(s[i]) || s[i] == '.' || s[i] == '-' || s[i] == '_')
    && (forall i :: 0 <= i < |s| - 1 ==> !(s[i] == '.' && s[i + 1] == '.'))
    && s[|s| - 1] != '.'
  }

  const HTTPS := "https://"
  const APP := "app:"

  function WithPort(host: string, port: Option<string>): Result<Origin, ParseError> {
    match port
    case None => Ok(Https(host, None))
    case Some(p) =>
      match ParsePort(p)
      case None => Err(Port)
      case Some(n) => Ok(Https(host, Some(n)))
  }

  function Parse(s: string): Result<Origin, ParseError> {
    match StripPrefix(s, HTTPS)
    case Some(rest) =>
      var (host, port) := SplitOnce(rest, ':');
      if IsHost(host) then WithPort(Lowercase(host), port) else Err(Host)
    case None =>
      match StripPrefix(s, APP)
      case Some(id) => if IsAppId(id) then Ok(App(id)) else Err(Host)
      case None => Err(Scheme)
  }

  function Display(o: Origin): string {
    match o
    case Https(host, port) => HTTPS + (host + if port.Some? then ":" + Print(port.value) else "")
    case App(id) => APP + id
  }

  // ---------- round trips ----------

  lemma {:induction false} PrintedNumberReadsBack(n: nat)
    ensures var s := Print(n); s != "" && AllDigits(s) && NumberOf(s) == n && s[0] != '+'
  {
    var s := Print(n);
    if n < 10 {
      assert s[..0] == "";
    } else {
      PrintedNumberReadsBack(n / 10);
      assert s[..|s| - 1] == Print(n / 10);
    }
  }

  lemma {:induction false} SplitFindsSeparator(before: string, c: char, after: string)
    requires c !in before
    ensures SplitOnce(before + [c] + after, c) == (before, Some(after))
    ensures SplitOnce(before, c) == (before, None)
  {
    if before == "" {
      assert before + [c] + after == [c] + after;
    } else {
      var s := before + [c] + after;
      SplitFindsSeparator(before[1..], c, after);
      assert s[1..] == before[1..] + [c] + after;
      assert before == [before[0]] + before[1..];
    }
  }

  /** Exactly the origins that parsing can return. */
  predicate Normal(o: Origin) {
    match o
    case Https(host, port) =>
      && IsHost(host) && (forall i :: 0 <= i < |host| ==> !IsUpper(host[i]))
      && (port.Some? ==> port.value < 0x1_0000)
    case App(id) => IsAppId(id)
  }

  lemma LowercaseIsNormal(host: string)
    requires IsHost(host)
    ensures IsHost(Lowercase(host))
    ensures forall i :: 0 <= i < |host| ==> !IsUpper(Lowercase(host)[i])
  {
    forall i | 0 <= i < |host|
      ensures !IsUpper(Lowercase(host)[i])
      ensures IsAlphabetic(host[i]) ==> IsAlphabetic(Lowercase(host)[i])
      ensures !IsAlphabetic(host[i]) ==> Lowercase(host)[i] == host[i]
    {
      LowerFacts(host[i]);
    }
  }

  lemma LowerFacts(c: char)
    ensures !IsUpper(Lower(c))
    ensures if IsAlphabetic(c) then IsAlphabetic(Lower(c)) else Lower(c) == c
  {
  }

  lemma {:induction false} LowercaseKeepsNormal(host: string)
    requires forall i :: 0 <= i < |host| ==> !IsUpper(host[i])
    ensures Lowercase(host) == host
  {
  }

  lemma ParsedIsNormal(s: string)
    ensures Parse(s).Ok? ==> Normal(Parse(s).value)
  {
    var rest := StripPrefix(s, HTTPS);
    if rest.Some? && IsHost(SplitOnce(rest.value, ':').0) {
      LowercaseIsNormal(SplitOnce(rest.value, ':').0);
    }
  }

  /** Printing an origin in normal form and parsing it again gives the same origin. */
  lemma NormalPrintsBack(o: Origin)
    requires Normal(o)
    ensures Parse(Display(o)) == Ok(o)
  {
    match o
    case Https(host, port) =>
      LowercaseKeepsNormal(host);
      HttpsParses(host, if port.Some? then Some(Print(port.value)) else None);
      if port.Some? {
        PrintedNumberReadsBack(port.value);
      }
    case App(id) => AppParses(id);
  }

  lemma AppParses(id: string)
    ensures Parse(APP + id) == if IsAppId(id) then Ok(App(id)) else Err(Host)
  {
    assert (APP + id)[0] == 'a' && HTTPS[0] == 'h';
    assert (APP + id)[|APP|..] == id;
  }

  /** An origin can come out of the parser exactly when it is in normal form. */
  lemma ParsableIffNormal(o: Origin)
    ensures (exists s :: Parse(s) == Ok(o)) <==> Normal(o)
  {
    if Normal(o) {
      NormalPrintsBack(o);
    }
    forall s | Parse(s) == Ok(o) ensures Normal(o) {
      ParsedIsNormal(s);
    }
  }

  /** The normal form of an accepted string. */
  function Normalise(s: string): Option<string> {
    match Parse(s)
    case Ok(o) => Some(Display(o))
    case Err(_) => None
  }

  /** Two accepted strings mean the same origin exactly when their normal forms agree, and a
      normal form is its own. */
  lemma NormalFormsDecide(s: string, t: string)
    requires Parse(s).Ok? && Parse(t).Ok?
    ensures Normalise(s) == Normalise(t) <==> Parse(s) == Parse(t)
    ensures Normalise(Normalise(s).value) == Normalise(s)
  {
    ParsedIsNormal(s);
    ParsedIsNormal(t);
    NormalPrintsBack(Parse(s).value);
    NormalPrintsBack(Parse(t).value);
  }

  /** Host case, leading zeros and a plus sign of the port make no difference. */
  lemma {:induction false} LeadingZerosVanish(zeros: nat, digits: string)
    requires digits != "" && AllDigits(digits)
    ensures ParsePort(Repeat('0', zeros) + digits) == ParsePort(digits)
    ensures ParsePort("+" + Repeat('0', zeros) + digits) == ParsePort(digits)
  {
    ZerosAddNothing(zeros, digits);
    var padded := Repeat('0', zeros) + digits;
    assert ("+" + Repeat('0', zeros) + digits)[1..] == padded;
    assert padded[0] != '+' && digits[0] != '+' by { assert IsDigit(padded[0]) && IsDigit(digits[0]); }
  }

  function Repeat(c: char, n: nat): (s: string)
    ensures |s| == n && forall i :: 0 <= i < n ==> s[i] == c
  {
    if n == 0 then "" else [c] + Repeat(c, n - 1)
  }

  lemma {:induction false} ZerosAddNothing(zeros: nat, digits: string)
    requires AllDigits(digits)
    ensures AllDigits(Repeat('0', zeros) + digits)
    ensures NumberOf(Repeat('0', zeros) + digits) == NumberOf(digits)
    decreases |digits|, zeros
  {
    var padded := Repeat('0', zeros) + digits;
    if digits != "" {
      var init := digits[..|digits| - 1];
      ZerosAddNothing(zeros, init);
      assert padded[..|padded| - 1] == Repeat('0', zeros) + init;
    } else if zeros > 0 {
      ZerosAddNothing(zeros - 1, "");
      assert padded[..|padded| - 1] == Repeat('0', zeros - 1) + "";
    }
  }

  /** How an https origin with a given host and port part is parsed. */
  lemma HttpsParses(host: string, port: Option<string>)
    requires IsHost(host)
    ensures Parse(HTTPS + (host + if port.Some? then ":" + port.value else "")) ==
            WithPort(Lowercase(host), port)
  {
    var rest := host + if port.Some? then ":" + port.value else "";
    assert (HTTPS + rest)[|HTTPS|..] == rest;
    assert ':' !in host;
    SplitFindsSeparator(host, ':', if port.Some? then port.value else "");
    assert rest == if port.Some? then host + ":" + port.value else host;
  }

  lemma CaseMakesNoDifference(host: string, host': string, port: Option<string>)
    requires IsHost(host) && IsHost(host') && Lowercase(host) == Lowercase(host')
    ensures var tail := if port.Some? then ":" + port.value else "";
            Parse(HTTPS + (host + tail)) == Parse(HTTPS + (host' + tail))
  {
    HttpsParses(host, port);
    HttpsParses(host', port);
  }

  // ---------- letters, labels and ports spelled out ----------

  const CAPITALS := "ABCDEFGHIJKLMNOPQRSTUVWXYZ"
  const SMALL := "abcdefghijklmnopqrstuvwxyz"

  /** Lower case turns each capital into its small letter and leaves everything else alone. */
  lemma LowerSpelledOut(c: char, i: nat)
    ensures i < 26 ==> Lower(CAPITALS[i]) == SMALL[i] && Lower(SMALL[i]) == SMALL[i]
    ensures c !in CAPITALS ==> Lower(c) == c
  {
    if IsUpper(c) {
      assert CAPITALS[c as int - 65] == c;
    }
  }

  /** A string cut at every dot. */
  function Labels(s: string): (labels: seq<string>)
    ensures labels != []
  {
    if s == "" then [""]
    else
      var rest := Labels(s[1..]);
      if s[0] == '.' then [""] + rest else [[s[0]] + rest[0]] + rest[1..]
  }

  lemma {:induction false} LabelsNotEmptyIff(s: string)
    ensures Labels(s)[0] == "" <==> s == "" || s[0] == '.'
    ensures (forall l :: l in Labels(s)[1..] ==> l != "") <==>
            (s == "" || s[|s| - 1] != '.') && forall i :: 0 <= i < |s| - 1 ==> !(s[i] == '.' && s[i + 1] == '.')
  {
    if s != "" {
      var t := s[1..];
      LabelsNotEmptyIff(t);
      var rest := Labels(t);
      assert rest == [rest[0]] + rest[1..];
      assert Labels(s)[1..] == if s[0] == '.' then rest else rest[1..];
      assert forall l :: l in rest <==> l == rest[0] || l in rest[1..];
      assert forall i :: 0 < i < |s| ==> s[i] == t[i - 1];
      if forall i :: 0 <= i < |s| - 1 ==> !(s[i] == '.' && s[i + 1] == '.') {
        assert forall i :: 0 <= i < |t| - 1 ==> !(t[i] == '.' && t[i + 1] == '.') by {
          forall i | 0 <= i < |t| - 1 ensures !(t[i] == '.' && t[i + 1] == '.') {
            assert t[i] == s[i + 1] && t[i + 1] == s[i + 2];
          }
        }
        if t != "" && s[0] == '.' {
          assert s[1] == t[0];
        }
      }
    }
  }

  lemma {:induction false} LastLabelEmptyIff(s: string)
    ensures Labels(s)[|Labels(s)| - 1] == "" <==> s == "" || s[|s| - 1] == '.'
  {
    if s != "" {
      LastLabelEmptyIff(s[1..]);
      var rest := Labels(s[1..]);
      assert |rest| == 1 ==>
        Labels(s)[|Labels(s)| - 1] == if s[0] == '.' then rest[0] else [s[0]] + rest[0];
      assert s[1..] == "" ==> Labels(s[1..]) == [""];
    }
  }

  const DIGITS := "0123456789"

  /** Letters and digits, listed. */
  lemma CharactersSpelledOut(c: char)
    ensures IsUpper(c) <==> c in CAPITALS
    ensures IsAlphabetic(c) <==> c in CAPITALS || c in SMALL
    ensures IsDigit(c) <==> c in DIGITS
  {
    InARow(CAPITALS, 'A', c);
    InARow(SMALL, 'a', c);
    InARow(DIGITS, '0', c);
  }

  lemma InARow(s: string, first: char, c: char)
    requires forall i :: 0 <= i < |s| ==> s[i] as int == first as int + i
    ensures c in s <==> first as int <= c as int < first as int + |s|
  {
    if first as int <= c as int < first as int + |s| {
      assert s[c as int - first as int] == c;
    }
  }

  /** Hosts are labels separated by dots that start with a letter and do not end with an empty
      label; empty labels further inside are accepted. */
  lemma HostIff(s: string)
    ensures IsHost(s) <==>
            && s != "" && IsAlphabetic(s[0])
            && (forall i :: 0 <= i < |s| ==> IsAlphabetic(s[i]) || IsDigit(s[i]) || s[i] in ".-")
            && Labels(s)[|Labels(s)| - 1] != ""
  {
    LastLabelEmptyIff(s);
  }

  /** App IDs are labels separated by dots, none of them empty, and start with a letter. */
  lemma AppIdIff(s: string)
    ensures IsAppId(s) <==>
            && s != "" && IsAlphabetic(s[0])
            && (forall i :: 0 <= i < |s| ==>
                  IsAlphabetic(s[i]) || IsDigit(s[i]) || s[i] in ".-_")
            && (forall l :: l in Labels(s) ==> l != "")
  {
    LabelsNotEmptyIff(s);
    var labels := Labels(s);
    assert labels == [labels[0]] + labels[1..];
    assert forall l :: l in labels <==> l == labels[0] || l in labels[1..];
  }

  /** The ways to write a number: leading zeros, and at most one plus sign before them. */
  function Written(plus: bool, zeros: nat, n: nat): string {
    (if plus then "+" else "") + (Repeat('0', zeros) + Print(n))
  }

  /** A port is read exactly from its decimal digits, with any leading zeros and at most one plus
      sign before them, if it is below 65536. */
  lemma PortIff(s: string, n: nat)
    ensures ParsePort(s) == Some(n) <==>
            n < 65536 && exists plus, zeros: nat :: s == Written(plus, zeros, n)
  {
    if ParsePort(s) == Some(n) {
      var plus := s != "" && s[0] == '+';
      var zeros := DigitsArePrinted(if plus then s[1..] else s);
      assert s == Written(plus, zeros, n);
    }
    if n < 65536 {
      forall plus, zeros: nat ensures ParsePort(Written(plus, zeros, n)) == Some(n) {
        WrittenPortReads(plus, zeros, n);
      }
    }
  }

  lemma WrittenPortReads(plus: bool, zeros: nat, n: nat)
    requires n < 65536
    ensures ParsePort(Written(plus, zeros, n)) == Some(n)
  {
    PrintedNumberReadsBack(n);
    ZerosAddNothing(zeros, Print(n));
    DigitsAreRead(Repeat('0', zeros) + Print(n), n);
  }

  lemma DigitsAreRead(digits: string, n: nat)
    requires digits != "" && AllDigits(digits) && NumberOf(digits) == n < 65536
    ensures ParsePort("" + digits) == Some(n) && ParsePort("+" + digits) == Some(n)
  {
    assert IsDigit(digits[0]);
    PlainDigitsAreRead("" + digits, digits, n);
    SignedDigitsAreRead("+" + digits, digits, n);
  }

  lemma PlainDigitsAreRead(s: string, digits: string, n: nat)
    requires s == digits && digits != "" && AllDigits(digits) && NumberOf(digits) == n < 65536
    requires IsDigit(digits[0])
    ensures ParsePort(s) == Some(n)
  {
  }

  lemma SignedDigitsAreRead(s: string, digits: string, n: nat)
    requires s != "" && s[0] == '+' && s[1..] == digits
    requires digits != "" && AllDigits(digits) && NumberOf(digits) == n < 65536
    ensures ParsePort(s) == Some(n)
  {
  }

  /** Digits are zeros followed by the decimal notation of their number. */
  lemma {:induction false} DigitsArePrinted(digits: string) returns (zeros: nat)
    requires digits != "" && AllDigits(digits)
    ensures digits == Repeat('0', zeros) + Print(NumberOf(digits))
  {
    var init, last := digits[..|digits| - 1], digits[|digits| - 1];
    assert [DigitChar(DigitValue(last))] == [last];
    if init == "" {
      zeros := 0;
      assert NumberOf(digits) == DigitValue(last);
    } else {
      zeros := DigitsArePrinted(init);
      if NumberOf(init) == 0 {
        assert Print(0) == "0";
        RepeatSnoc('0', zeros);
        zeros := zeros + 1;
      } else {
        assert Print(NumberOf(digits)) == Print(NumberOf(init)) + [last];
      }
      assert digits == init + [last];
    }
  }

  lemma {:induction false} RepeatSnoc(c: char, n: nat)
    ensures Repeat(c, n + 1) == Repeat(c, n) + [c]
  {
    if n > 0 {
      RepeatSnoc(c, n - 1);
    }
  }

  /** Every other string is refused, and for which reason. */
  lemma Refusals(s: string, host: string, port: Option<string>, id: string)
    ensures !("https://" <= s) && !("app:" <= s) ==> Parse(s) == Err(Scheme)
    ensures ':' !in host && !IsHost(host) ==>
              Parse("https://" + (host + if port.Some? then ":" + port.value else "")) == Err(Host)
    ensures IsHost(host) && port.Some? && (forall n :: ParsePort(port.value) != Some(n)) ==>
              Parse("https://" + (host + ":" + port.value)) == Err(Port)
    ensures !IsAppId(id) ==> Parse("app:" + id) == Err(Host)
  {
    if ':' !in host && !IsHost(host) {
      var rest := host + if port.Some? then ":" + port.value else "";
      assert (HTTPS + rest)[|HTTPS|..] == rest;
      SplitFindsSeparator(host, ':', if port.Some? then port.value else "");
      assert rest == if port.Some? then host + ":" + port.value else host;
    }
    if IsHost(host) && port.Some? && forall n :: ParsePort(port.value) != Some(n) {
      HttpsParses(host, port);
      assert host + (":" + port.value) == host + ":" + port.value;
    }
    AppParses(id);
  }
}
