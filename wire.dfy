/** The line format shared by the broker and its endpoints: the opcode
    enumeration, the zero-padded five-digit decimal fields that
    `LanguageHandler.writeCommand` prepends to every payload, and the
    five-character action prefix on which the reader of `LanguageHandler.run`
    selects a handler. Everything here is a pure function of strings. */
module Wire {

  /** The operations of the protocol, in the order of their ordinals. */
  datatype Op = Nothing | Error | Init | Return | RegisterClass | CreateObject | CallMethod

  /** The ordinal of each operation: its position in the enumeration. */
  function Ordinal(op: Op): (n: nat)
    ensures n < 7
  {
    match op
    case Nothing => 0
    case Error => 1
    case Init => 2
    case Return => 3
    case RegisterClass => 4
    case CreateObject => 5
    case CallMethod => 6
  }

  /** Distinct operations have distinct ordinals. */
  lemma OrdinalInjective(a: Op, b: Op)
    ensures Ordinal(a) == Ordinal(b) <==> a == b
  {
  }

  predicate IsDigit(c: char) {
    '0' <= c <= '9'
  }

  predicate AllDigits(s: string) {
    forall i :: 0 <= i < |s| ==> IsDigit(s[i])
  }

  function DigitChar(d: nat): (c: char)
    requires d < 10
    ensures IsDigit(c)
  {
    ('0' as int + d) as char
  }

  function DigitValue(c: char): (d: nat)
    requires IsDigit(c)
    ensures d < 10
  {
    c as int - '0' as int
  }

  function Pow10(k: nat): (p: nat)
    ensures p >= 1
  {
    if k == 0 then 1 else 10 * Pow10(k - 1)
  }

  /** Java's `%d` conversion of a non-negative number: its decimal digits,
      most significant first, without leading zeros. */
  function Decimal(n: nat): (s: string)
    ensures 1 <= |s| && AllDigits(s)
  {
    if n < 10 then [DigitChar(n)] else Decimal(n / 10) + [DigitChar(n % 10)]
  }

  /** The value of a string of decimal digits, most significant first. */
  function ParseDecimal(s: string): nat
    requires AllDigits(s)
  {
    if s == [] then 0 else 10 * ParseDecimal(s[..|s| - 1]) + DigitValue(s[|s| - 1])
  }

  function Zeros(k: nat): (s: string)
    ensures |s| == k && AllDigits(s)
  {
    seq(k, i => '0')
  }

  /** A number has at most `k` digits exactly when it is below 10^k. */
  lemma {:induction false} DecimalLength(n: nat, k: nat)
    requires k >= 1
    ensures |Decimal(n)| <= k <==> n < Pow10(k)
  {
    if n >= 10 {
      if k >= 2 {
        DecimalLength(n / 10, k - 1);
        assert n / 10 < Pow10(k - 1) <==> n < 10 * Pow10(k - 1);
      }
    } else if k >= 2 {
      assert Pow10(k) == 10 * Pow10(k - 1);
    }
  }

  /** Java's `String.format("%05d", n)` for a non-negative `n`: the decimal
      digits of `n`, left-padded with zeros to width five. A number of six or
      more digits is written out in full, never cut to five. */
  function Pad5(n: nat): (s: string)
    ensures AllDigits(s) && |s| >= 5
    ensures n < 100000 <==> |s| == 5
  {
    DecimalLength(n, 5);
    var d := Decimal(n);
    if |d| < 5 then Zeros(5 - |d|) + d else d
  }

  lemma {:induction false} ParseDecimalOfDecimal(n: nat)
    ensures ParseDecimal(Decimal(n)) == n
  {
    if n >= 10 {
      var d := Decimal(n / 10);
      var s := d + [DigitChar(n % 10)];
      assert Decimal(n) == s;
      assert s[..|s| - 1] == d;
      ParseDecimalOfDecimal(n / 10);
    }
  }

  /** Leading zeros do not change the value of a digit string. */
  lemma {:induction false} ParseDecimalLeadingZeros(k: nat, s: string)
    requires AllDigits(s)
    ensures AllDigits(Zeros(k) + s) && ParseDecimal(Zeros(k) + s) == ParseDecimal(s)
    decreases |s|, k
  {
    var z := Zeros(k) + s;
    if s == [] {
      if k > 0 {
        assert z == Zeros(k);
        assert z[..|z| - 1] == Zeros(k - 1) + [];
        ParseDecimalLeadingZeros(k - 1, []);
      }
    } else {
      var init := s[..|s| - 1];
      assert z[..|z| - 1] == Zeros(k) + init;
      ParseDecimalLeadingZeros(k, init);
    }
  }

  /** The padded field decodes back to the number it encodes. */
  lemma Pad5RoundTrip(n: nat)
    ensures ParseDecimal(Pad5(n)) == n
  {
    var d := Decimal(n);
    ParseDecimalOfDecimal(n);
    if |d| < 5 {
      ParseDecimalLeadingZeros(5 - |d|, d);
    }
  }

  /** Distinct numbers have distinct padded fields. */
  lemma Pad5Injective(a: nat, b: nat)
    ensures Pad5(a) == Pad5(b) <==> a == b
  {
    Pad5RoundTrip(a);
    Pad5RoundTrip(b);
  }

  datatype Option<T> = None | Some(value: T)

  /** `System.lineSeparator()` on the platforms the broker is deployed on. */
  const LineSeparator := "\n"

  /** The largest width `java.util.Formatter` accepts, `Integer.MAX_VALUE`. */
  const MaxWidth := 0x7fff_ffff

  /** A result with a text in front of it; failure stays failure. */
  function Prepend(prefix: string, r: Option<string>): Option<string>
  {
    if r.Some? then Some(prefix + r.value) else None
  }

  lemma DigitsHaveNoPercent(s: string)
    requires AllDigits(s)
    ensures '%' !in s
  {
  }

  /** The number of decimal digits at the front of `t`. */
  function LeadingDigits(t: string): (n: nat)
    ensures n <= |t| && AllDigits(t[..n]) && (n < |t| ==> !IsDigit(t[n]))
  {
    if t != [] && IsDigit(t[0]) then
      var m := LeadingDigits(t[1..]);
      assert t[..1 + m] == [t[0]] + t[1..][..m];
      1 + m
    else 0
  }

  function Spaces(k: nat): (s: string)
    ensures |s| == k
  {
    seq(k, i => ' ')
  }

  /** A text padded with spaces to `width`, on the right when `left`. */
  function Justify(text: string, width: nat, left: bool): string
  {
    if width <= |text| then text
    else if left then text + Spaces(width - |text|)
    else Spaces(width - |text|) + text
  }

  /** What one conversion produces and how many characters after its `%`
      it takes up. */
  datatype Conversion = Conversion(output: string, length: nat)

  /** The conversion that follows a `%` in a format string used with no
      arguments: an optional `-` flag, an optional width (a digit run that
      does not start with `0`, which would be a flag), then `%` or `n`.
      `%` prints a percent sign justified to the width, and `-` needs a
      width; `n` prints the line separator and takes neither. Every other
      conversion, flag or precision fails: it is unknown, malformed, or asks
      for an argument there is none of. */
  function TextConversion(t: string): (r: Option<Conversion>)
    ensures r.Some? ==> 1 <= r.value.length <= |t|
  {
    var minus := t != [] && t[0] == '-';
    var u := if minus then t[1..] else t;
    var w := if u != [] && '1' <= u[0] <= '9' then LeadingDigits(u) else 0;
    var at := (if minus then 1 else 0) + w;
    if at >= |t| then None
    else if t[at] == '%' && (minus ==> w > 0) then
      var width := ParseDecimal(u[..w]);
      if width > MaxWidth then None else Some(Conversion(Justify("%", width, minus), at + 1))
    else if t[at] == 'n' && !minus && w == 0 then Some(Conversion(LineSeparator, at + 1))
    else None
  }

  /** `String.format(s)` with no arguments: `s` read as a format string.
      Text outside conversions is copied; `None` stands for the unchecked
      `IllegalFormatException` Java throws, in which case no text at all is
      produced. */
  function JavaFormat(s: string): Option<string>
    decreases |s|
  {
    if s == [] then Some("")
    else if s[0] != '%' then Prepend([s[0]], JavaFormat(s[1..]))
    else
      var c := TextConversion(s[1..]);
      if c.None? then None else Prepend(c.value.output, JavaFormat(s[1 + c.value.length..]))
  }

  lemma JavaFormatPlainHead(s: string)
    requires s != [] && s[0] != '%'
    ensures JavaFormat(s) == Prepend([s[0]], JavaFormat(s[1..]))
  {
  }

  /** A string without `%` comes back unchanged. */
  lemma {:induction false} JavaFormatPlain(s: string)
    ensures '%' !in s ==> JavaFormat(s) == Some(s)
  {
    if s != [] && '%' !in s {
      assert '%' !in s[1..];
      JavaFormatPlainHead(s);
      JavaFormatPlain(s[1..]);
      assert [s[0]] + s[1..] == s;
    }
  }

  /** Text without `%` in front of a format string passes through
      unchanged, and the rest is formatted as if it stood alone. */
  lemma {:induction false} JavaFormatAppend(a: string, b: string)
    requires '%' !in a
    ensures JavaFormat(a + b) == Prepend(a, JavaFormat(b))
  {
    var r := JavaFormat(b);
    if a == [] {
      assert a + b == b;
      assert r.Some? ==> a + r.value == r.value;
    } else {
      var ab := a + b;
      assert ab[0] == a[0] && ab[1..] == a[1..] + b;
      JavaFormatPlainHead(ab);
      JavaFormatAppend(a[1..], b);
      assert JavaFormat(ab) == Prepend([a[0]], Prepend(a[1..], r));
      if r.Some? {
        HeadAppend(a, r.value);
      }
    }
  }

  lemma HeadAppend(a: string, t: string)
    requires a != []
    ensures [a[0]] + (a[1..] + t) == a + t
  {
    assert [a[0]] + a[1..] == a;
  }

  /** A text with every `%` doubled: the form in which a text survives
      `String.format` unchanged. */
  function Escape(s: string): (e: string)
    ensures |e| >= |s|
  {
    if s == [] then ""
    else (if s[0] == '%' then "%%" else [s[0]]) + Escape(s[1..])
  }

  /** Formatting undoes escaping: every text, with its `%` doubled, comes
      out of `String.format` as it was. */
  lemma {:induction false} JavaFormatEscape(s: string)
    ensures JavaFormat(Escape(s)) == Some(s)
  {
    if s != [] {
      var e := Escape(s);
      JavaFormatEscape(s[1..]);
      if s[0] == '%' {
        assert e == "%%" + Escape(s[1..]);
        assert e[1..] == "%" + Escape(s[1..]);
        assert TextConversion(e[1..]) == Some(Conversion("%", 1));
        assert e[2..] == Escape(s[1..]);
      } else {
        assert e == [s[0]] + Escape(s[1..]);
        assert e[1..] == Escape(s[1..]);
      }
      assert [s[0]] + s[1..] == s;
    }
  }

  /** Conversions that fail: a trailing `%`, a conversion that needs an
      argument, `-` without a width, and the `0` flag. */
  lemma JavaFormatRejects()
    ensures JavaFormat("50%") == None
    ensures JavaFormat("%s") == None
    ensures JavaFormat("%-%") == None
    ensures JavaFormat("%05%") == None
  {
    JavaFormatAppend("50", "%");
    assert "50" + "%" == "50%";
    assert TextConversion("") == None;
    assert "%s"[1..] == "s" && TextConversion("s") == None;
    assert "%-%"[1..] == "-%" && "-%"[1..] == "%";
    assert TextConversion("-%") == None;
    assert "%05%"[1..] == "05%" && TextConversion("05%") == None;
  }

  lemma JavaFormatConversionHead(s: string, c: Conversion)
    requires s != [] && s[0] == '%' && TextConversion(s[1..]) == Some(c)
    ensures JavaFormat(s) == Prepend(c.output, JavaFormat(s[1 + c.length..]))
  {
  }

  /** Conversions that print without an argument: `%%` is a percent sign
      and `%n` the line separator. */
  lemma JavaFormatTexts()
    ensures JavaFormat("%%") == Some("%")
    ensures JavaFormat("%n") == Some(LineSeparator)
  {
    assert JavaFormat("") == Some("");
    assert "%%"[1..] == "%" && "%%"[2..] == "";
    assert TextConversion("%") == Some(Conversion("%", 1));
    JavaFormatConversionHead("%%", Conversion("%", 1));
    assert "%" + "" == "%";
    assert "%n"[1..] == "n" && "%n"[2..] == "";
    assert TextConversion("n") == Some(Conversion(LineSeparator, 1));
    JavaFormatConversionHead("%n", Conversion(LineSeparator, 1));
    assert LineSeparator + "" == LineSeparator;
  }

  /** A width pads the percent sign with spaces on the left, or on the
      right after `-`. */
  lemma JavaFormatWidths()
    ensures JavaFormat("%3%") == Some("  %")
    ensures JavaFormat("%-3%") == Some("%  ")
  {
    assert JavaFormat("") == Some("");
    assert "3%"[1..] == "%" && LeadingDigits("%") == 0;
    assert LeadingDigits("3%") == 1;
    assert "3%"[..1] == "3" && "3"[..0] == "";
    assert ParseDecimal("3") == 3;
    assert Spaces(2) == "  " && Justify("%", 3, false) == "  %" && Justify("%", 3, true) == "%  ";
    assert "%3%"[1..] == "3%" && "%3%"[3..] == "";
    assert TextConversion("3%") == Some(Conversion("  %", 2));
    JavaFormatConversionHead("%3%", Conversion("  %", 2));
    assert "  %" + "" == "  %";
    assert "%-3%"[1..] == "-3%" && "-3%"[1..] == "3%" && "%-3%"[4..] == "";
    assert TextConversion("-3%") == Some(Conversion("%  ", 3));
    JavaFormatConversionHead("%-3%", Conversion("%  ", 3));
    assert "%  " + "" == "%  ";
  }

  /** The two padded fields that open every line the broker writes. */
  function Header(op: Op, returnId: nat): (h: string)
    ensures AllDigits(h) && |h| >= 10
  {
    Pad5(Ordinal(op)) + Pad5(returnId)
  }

  /** The line `writeCommand(op, returnId, payload)` builds: the padded
      ordinal of `op`, the padded correlation id, then the payload. This is
      also the line the code evidently means to queue. */
  function PlainFrame(op: Op, returnId: nat, payload: string): string
  {
    Header(op, returnId) + payload
  }

  /** What `writeCommand` queues: the line it builds, passed once more
      through `String.format` with no arguments. The header passes
      unchanged, the payload is read as a format string, and a payload the
      formatter rejects leaves no line at all. */
  function Frame(op: Op, returnId: nat, payload: string): (r: Option<string>)
    ensures r == Prepend(Header(op, returnId), JavaFormat(payload))
    ensures '%' !in payload ==> r == Some(PlainFrame(op, returnId, payload))
  {
    DigitsHaveNoPercent(Header(op, returnId));
    JavaFormatAppend(Header(op, returnId), payload);
    JavaFormatPlain(payload);
    JavaFormat(PlainFrame(op, returnId, payload))
  }

  /** The lines one write adds to a queue: the frame, or none when the
      formatter rejected it. */
  function Queued(f: Option<string>): seq<string>
  {
    if f.Some? then [f.value] else []
  }

  /** For an id below 100000 a built line has a fixed layout: characters
      0..5 are the padded ordinal of its operation, characters 5..10 decode
      to its id, and the payload follows unchanged. */
  lemma PlainFrameLayout(op: Op, returnId: nat, payload: string)
    requires returnId < 100000
    ensures var f := PlainFrame(op, returnId, payload);
      |f| == 10 + |payload| &&
      f[..5] == Pad5(Ordinal(op)) && ParseDecimal(f[..5]) == Ordinal(op) &&
      AllDigits(f[5..10]) && ParseDecimal(f[5..10]) == returnId &&
      f[10..] == payload
  {
    var f := PlainFrame(op, returnId, payload);
    assert f[..5] == Pad5(Ordinal(op));
    assert f[5..10] == Pad5(returnId);
    Pad5RoundTrip(Ordinal(op));
    Pad5RoundTrip(returnId);
  }

  /** The queued line, for an id below 100000: it exists exactly when the
      payload survives formatting; then characters 0..5 decode to the
      ordinal, characters 5..10 to the id, and the formatted payload
      follows, which is the payload itself when it holds no `%`. */
  lemma FrameLayout(op: Op, returnId: nat, payload: string)
    requires returnId < 100000
    ensures Frame(op, returnId, payload).Some? <==> JavaFormat(payload).Some?
    ensures Frame(op, returnId, payload).Some? ==>
      var f, p := Frame(op, returnId, payload).value, JavaFormat(payload).value;
      |f| == 10 + |p| &&
      ParseDecimal(f[..5]) == Ordinal(op) && ParseDecimal(f[5..10]) == returnId &&
      f[10..] == p
    ensures '%' !in payload ==> Frame(op, returnId, payload) == Some(PlainFrame(op, returnId, payload))
  {
    if JavaFormat(payload).Some? {
      PlainFrameLayout(op, returnId, JavaFormat(payload).value);
    }
  }

  /** A Return payload whose value holds a percent sign is not queued at
      all: `%"` is no conversion Java knows. */
  lemma PercentPayloadLost()
    ensures Frame(Op.Return, 0, "{\"returnVal\":\"50%\"}") == None
  {
    var open, close := "{\"returnVal\":\"50", "%\"}";
    assert '%' !in open;
    JavaFormatAppend(open, close);
    assert open + close == "{\"returnVal\":\"50%\"}";
    assert close[1..] == "\"}" && TextConversion("\"}") == None;
  }

  /** A Return payload whose value holds `%%` is queued with a single `%`:
      the value the endpoint receives is not the one that was sent. */
  lemma DoublePercentRewritten()
    ensures Frame(Op.Return, 0, "{\"returnVal\":\"50%%\"}") ==
      Some(PlainFrame(Op.Return, 0, "{\"returnVal\":\"50%\"}"))
  {
    var open, close := "{\"returnVal\":\"50", "\"}";
    var tail := "%%" + close;
    assert '%' !in open && '%' !in close;
    JavaFormatAppend(open, tail);
    assert open + tail == "{\"returnVal\":\"50%%\"}";
    assert tail[1..] == "%" + close && tail[2..] == close;
    assert TextConversion(tail[1..]) == Some(Conversion("%", 1));
    JavaFormatConversionHead(tail, Conversion("%", 1));
    JavaFormatPlain(close);
    assert open + ("%" + close) == "{\"returnVal\":\"50%\"}";
  }

  /** What the reader of `LanguageHandler.run` does with one input line:
      call one of five handlers with the text after the action prefix, report
      an unknown action, or fail on a line shorter than the prefix. */
  datatype Route =
    | ToRegisterClass(data: string)
    | ToCreateObject(data: string)
    | ToInit(data: string)
    | ToCallMethod(data: string)
    | ToReturn(data: string)
    | Unknown(action: string)
    | TooShort

  /** The operations the reader has a handler for. */
  predicate Handled(op: Op) {
    !op.Nothing? && !op.Error?
  }

  /** The handler the reader selects for a handled operation. */
  function RouteFor(op: Op, data: string): (r: Route)
    requires Handled(op)
    ensures !r.Unknown? && !r.TooShort? && r.data == data
  {
    match op
    case RegisterClass => ToRegisterClass(data)
    case CreateObject => ToCreateObject(data)
    case Init => ToInit(data)
    case CallMethod => ToCallMethod(data)
    case Return => ToReturn(data)
  }

  /** The reader's classification of an input line: the first five
      characters are the action, compared in turn with the padded ordinals
      of RegisterClass, CreateObject, Init, CallMethod and Return; the rest
      of the line is the data handed to the chosen handler. */
  function Classify(line: string): (r: Route)
    ensures r.TooShort? <==> |line| < 5
  {
    if |line| < 5 then TooShort
    else
      var action, data := line[..5], line[5..];
      if action == Pad5(Ordinal(RegisterClass)) then ToRegisterClass(data)
      else if action == Pad5(Ordinal(CreateObject)) then ToCreateObject(data)
      else if action == Pad5(Ordinal(Init)) then ToInit(data)
      else if action == Pad5(Ordinal(CallMethod)) then ToCallMethod(data)
      else if action == Pad5(Ordinal(Return)) then ToReturn(data)
      else Unknown(action)
  }

  /** A line that starts with the padded ordinal of a handled operation goes
      to that operation's handler with the rest of the line; one that starts
      with the padded ordinal of Nothing or Error reaches no handler. */
  lemma ClassifyPrefix(op: Op, data: string)
    ensures Classify(Pad5(Ordinal(op)) + data) ==
      if Handled(op) then RouteFor(op, data) else Unknown(Pad5(Ordinal(op)))
  {
    var line := Pad5(Ordinal(op)) + data;
    assert line[..5] == Pad5(Ordinal(op));
    assert line[5..] == data;
    forall other: Op
      ensures Pad5(Ordinal(other)) == Pad5(Ordinal(op)) <==> other == op
    {
      Pad5Injective(Ordinal(other), Ordinal(op));
      OrdinalInjective(other, op);
    }
  }

  /** The classification of every line of at least five characters: the
      handler whose padded ordinal equals the action, if there is one, and
      otherwise no handler at all. */
  lemma ClassifyAction(line: string)
    requires |line| >= 5
    ensures forall op :: Handled(op) && line[..5] == Pad5(Ordinal(op)) ==>
      Classify(line) == RouteFor(op, line[5..])
    ensures Classify(line).Unknown? <==>
      forall op :: Handled(op) ==> line[..5] != Pad5(Ordinal(op))
  {
    assert line == line[..5] + line[5..];
    forall op: Op
      ensures Classify(line) == if line[..5] == Pad5(Ordinal(op)) && Handled(op) then RouteFor(op, line[5..]) else Classify(line)
    {
      if line[..5] == Pad5(Ordinal(op)) {
        ClassifyPrefix(op, line[5..]);
      }
    }
    if !Classify(line).Unknown? {
      var r := Classify(line);
      var op :=
        match r
        case ToRegisterClass(_) => RegisterClass
        case ToCreateObject(_) => CreateObject
        case ToInit(_) => Init
        case ToCallMethod(_) => CallMethod
        case ToReturn(_) => Return;
      assert Handled(op) && line[..5] == Pad5(Ordinal(op));
    }
  }
}
