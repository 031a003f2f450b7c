/**
 * The parameter manager of `scheduler/params.py`: a store of named values
 * and the `${...}` substitution language resolved against it.
 *
 * A reference is the text `${name}` where `name` is a non-empty run of
 * characters up to the first `}`.  Its body is first tried as a date
 * expression `<format><+|-><days>` relative to "now"; otherwise a stored
 * string is resolved again (references may chain), a stored non-string is
 * rendered with `str`, and an unknown name is left as written.
 */
module Params {
  import opened Outcomes
  import opened Text
  import opened Calendar

  /** A parameter value: the Python types the scheduler meets, others by their `str`. */
  datatype Value =
    | Str(s: string)
    | Int(i: int)
    | Bool(b: bool)
    | NoneValue
    | Other(repr: string, truthy: bool)

  /** `str(v)`. */
  function Show(v: Value): string
  {
    match v
    case Str(s) => s
    case Int(i) => IntToString(i)
    case Bool(b) => if b then "True" else "False"
    case NoneValue => "None"
    case Other(r, _) => r
  }

  /** Python truthiness. */
  predicate Truthy(v: Value)
  {
    match v
    case Str(s) => s != ""
    case Int(i) => i != 0
    case Bool(b) => b
    case NoneValue => false
    case Other(_, t) => t
  }

  // ---------------------------------------------------------------------
  // Tokens: the matches of `\${([^}]+)}`

  /** A piece of scanned text: a literal character or a `${name}` reference. */
  datatype Piece = Char(c: char) | Ref(name: string)

  /** The length of the name of a reference starting `s`, if one does. */
  function RefAt(s: string): (r: Option<nat>)
    ensures r.Some? ==> 3 + r.value <= |s| && r.value >= 1
    ensures r.Some? ==> s[..2] == "${" && s[2 + r.value] == '}' && '}' !in s[2..2 + r.value]
  {
    if |s| >= 2 && s[0] == '$' && s[1] == '{' then
      match CharIndex(s[2..], '}')
      case Some(k) => if k >= 1 then Some(k) else None
      case None => None
    else None
  }

  /** The text of a reference. */
  function RefText(name: string): string { "${" + name + "}" }

  /** Splits a text into the pieces `re.finditer` / `re.sub` see, left to right. */
  function Scan(s: string): (ps: seq<Piece>)
    ensures forall i :: 0 <= i < |ps| && ps[i].Ref? ==> |ps[i].name| >= 1 && '}' !in ps[i].name
    decreases |s|
  {
    if |s| == 0 then []
    else
      match RefAt(s)
      case Some(k) => [Ref(s[2..2 + k])] + Scan(s[3 + k..])
      case None => [Char(s[0])] + Scan(s[1..])
  }

  /** The text a sequence of pieces was scanned from. */
  function Render(ps: seq<Piece>): string
  {
    if |ps| == 0 then ""
    else (match ps[0] case Char(c) => [c] case Ref(n) => RefText(n)) + Render(ps[1..])
  }

  /** Scanning loses nothing: rendering the pieces gives the text back. */
  lemma {:induction false} RenderScan(s: string)
    ensures Render(Scan(s)) == s
    decreases |s|
  {
    if |s| > 0 {
      match RefAt(s)
      case Some(k) =>
        RenderScan(s[3 + k..]);
        RefSplits(s, k);
      case None =>
        RenderScan(s[1..]);
    }
  }

  /** A text that starts with a reference is that reference and the rest. */
  lemma RefSplits(s: string, k: nat)
    requires RefAt(s) == Some(k)
    ensures s == RefText(s[2..2 + k]) + s[3 + k..]
    ensures Render(Scan(s)) == RefText(s[2..2 + k]) + Render(Scan(s[3 + k..]))
  {
    assert s == s[..2] + s[2..2 + k] + [s[2 + k]] + s[3 + k..];
    var ps := Scan(s);
    assert ps == [Ref(s[2..2 + k])] + Scan(s[3 + k..]);
    assert ps[1..] == Scan(s[3 + k..]);
  }

  /**
   * What scanning guarantees beyond the names: a "${" left as two
   * characters is followed at once by '}' or by no '}' at all.
   */
  predicate Scanned(ps: seq<Piece>)
  {
    forall i :: 0 <= i < |ps| - 1 && ps[i] == Char('$') && ps[i + 1] == Char('{') ==> Unclosed(ps[i + 2..])
  }

  predicate Unclosed(ps: seq<Piece>)
  {
    (|ps| > 0 && ps[0] == Char('}')) || forall j :: 0 <= j < |ps| ==> ps[j] != Char('}') && ps[j].Char?
  }

  /** A text without '}' holds no reference: every piece is one of its characters. */
  lemma {:induction false} ScanUnclosed(s: string)
    requires '}' !in s
    ensures |Scan(s)| == |s| && forall j :: 0 <= j < |s| ==> Scan(s)[j] == Char(s[j])
    decreases |s|
  {
    if |s| > 0 {
      assert RefAt(s).None? by {
        if |s| >= 2 && s[0] == '$' && s[1] == '{' {
          assert forall j :: 0 <= j < |s| - 2 ==> s[2..][j] == s[j + 2];
        }
      }
      assert '}' !in s[1..] by { assert forall j :: 0 <= j < |s| - 1 ==> s[1..][j] == s[j + 1]; }
      ScanUnclosed(s[1..]);
    }
  }

  /** The first piece of a text that starts with neither a reference nor '$' is its first character. */
  lemma ScanHead(s: string)
    requires |s| > 0 && s[0] != '$'
    ensures Scan(s) == [Char(s[0])] + Scan(s[1..])
  {
  }

  lemma {:induction false} ScanScanned(s: string)
    ensures Scanned(Scan(s))
    decreases |s|
  {
    if |s| > 0 {
      var ps := Scan(s);
      match RefAt(s)
      case Some(k) =>
        ScanScanned(s[3 + k..]);
        var tail := Scan(s[3 + k..]);
        assert ps == [Ref(s[2..2 + k])] + tail;
        forall i | 0 <= i < |ps| - 1 && ps[i] == Char('$') && ps[i + 1] == Char('{') ensures Unclosed(ps[i + 2..]) {
          assert tail[i - 1] == ps[i] && tail[i] == ps[i + 1];
          assert ps[i + 2..] == tail[i + 1..];
        }
      case None =>
        ScanScanned(s[1..]);
        var tail := Scan(s[1..]);
        assert ps == [Char(s[0])] + tail;
        forall i | 0 <= i < |ps| - 1 && ps[i] == Char('$') && ps[i + 1] == Char('{') ensures Unclosed(ps[i + 2..]) {
          if i == 0 {
            OpenedBrace(s);
          } else {
            assert tail[i - 1] == ps[i] && tail[i] == ps[i + 1];
            assert ps[i + 2..] == tail[i + 1..];
          }
        }
    }
  }

  /** A "$" that scans as a character and is followed by "{" is followed by "}" at once or by no "}". */
  lemma OpenedBrace(s: string)
    requires |s| > 0 && s[0] == '$' && RefAt(s).None?
    requires |Scan(s)| > 1 && Scan(s)[1] == Char('{')
    ensures Unclosed(Scan(s)[2..])
  {
    assert Scan(s) == [Char('$')] + Scan(s[1..]);
    var t := s[1..];
    assert |t| > 0 && t[0] == '{';
    ScanHead(t);
    assert Scan(s)[2..] == Scan(t[1..]);
    var u := s[2..];
    assert t[1..] == u;
    match CharIndex(u, '}')
    case Some(k) =>
      assert k == 0;
      ScanHead(u);
    case None =>
      ScanUnclosed(u);
  }

  /** A text holds no reference. */
  predicate NoRefs(s: string)
  {
    forall i :: 0 <= i < |Scan(s)| ==> Scan(s)[i].Char?
  }

  // ---------------------------------------------------------------------
  // The date expression `([a-zA-Z\-]+)([\+\-])(\d+)` matched at the start

  predicate IsFormatChar(c: char) { IsAsciiLetter(c) || c == '-' }

  /** Length of the longest prefix of letters and dashes. */
  function FormatRun(s: string): (n: nat)
    ensures n <= |s|
    ensures forall i :: 0 <= i < n ==> IsFormatChar(s[i])
    ensures n < |s| ==> !IsFormatChar(s[n])
  {
    if |s| > 0 && IsFormatChar(s[0]) then 1 + FormatRun(s[1..]) else 0
  }

  /** Length of the longest prefix of digits. */
  function DigitRun(s: string): (n: nat)
    ensures n <= |s| && AllDigits(s[..n])
    ensures n < |s| ==> !IsDigit(s[n])
  {
    if |s| > 0 && IsDigit(s[0]) then
      var n := 1 + DigitRun(s[1..]);
      assert s[..n] == [s[0]] + s[1..][..n - 1];
      n
    else 0
  }

  lemma {:induction false} FormatRunOf(a: string, b: string)
    requires forall i :: 0 <= i < |a| ==> IsFormatChar(a[i])
    requires |b| == 0 || !IsFormatChar(b[0])
    ensures FormatRun(a + b) == |a|
    decreases |a|
  {
    if |a| > 0 {
      assert (a + b)[1..] == a[1..] + b;
      FormatRunOf(a[1..], b);
    } else {
      assert a + b == b;
    }
  }

  lemma {:induction false} DigitRunOf(a: string, b: string)
    requires AllDigits(a) && (|b| == 0 || !IsDigit(b[0]))
    ensures DigitRun(a + b) == |a|
    decreases |a|
  {
    if |a| > 0 {
      assert (a + b)[1..] == a[1..] + b;
      DigitRunOf(a[1..], b);
    } else {
      assert a + b == b;
    }
  }

  /** A matched date expression: the format part and the signed day offset. */
  datatype DateExpr = DateExpr(format: string, plus: bool, days: nat)
  {
    /** The signed number of days: '+' counts forward, '-' back. */
    function Offset(): int { if plus then days as int else -(days as int) }
  }

  /** `k` splits `s` as the regex can: a format of length `k`, a sign, a digit. */
  predicate SplitsAt(s: string, k: int)
  {
    1 <= k && k + 1 < |s|
    && (forall i :: 0 <= i < k ==> IsFormatChar(s[i]))
    && (s[k] == '+' || s[k] == '-') && IsDigit(s[k + 1])
  }

  /**
   * `re.match(r'([a-zA-Z\-]+)([\+\-])(\d+)', s)`.  The greedy format group
   * backs off from the longest run of letters and dashes: the sign is the
   * character after the run (only '+' can be, since '-' belongs to the
   * run) or, failing that, the run's own last '-', when a digit follows.
   * The digits are then taken greedily; anything after them is ignored.
   */
  function MatchDateExpr(s: string): (r: Option<DateExpr>)
  {
    var n := FormatRun(s);
    if 1 <= n && n + 1 < |s| && s[n] == '+' && IsDigit(s[n + 1]) then
      var d := DigitRun(s[n + 1..]);
      Some(DateExpr(s[..n], true, DigitsValue(s[n + 1..][..d])))
    else if 2 <= n && n < |s| && s[n - 1] == '-' && IsDigit(s[n]) then
      var d := DigitRun(s[n..]);
      Some(DateExpr(s[..n - 1], false, DigitsValue(s[n..][..d])))
    else None
  }

  /**
   * The match succeeds exactly when some split of the regex exists, and it
   * uses the longest one: its format is followed by the sign and the whole
   * run of digits after it.
   */
  lemma MatchDateExprSpec(s: string)
    ensures MatchDateExpr(s).Some? <==> exists k :: SplitsAt(s, k)
    ensures MatchDateExpr(s).Some? ==>
      var e := MatchDateExpr(s).value;
      var k := |e.format|;
      SplitsAt(s, k) && e.format == s[..k] && (s[k] == '+' <==> e.plus)
      && (forall j :: SplitsAt(s, j) ==> j <= k)
      && e.days == DigitsValue(s[k + 1..][..DigitRun(s[k + 1..])])
  {
    SplitsNearRun(s);
    if MatchDateExpr(s).Some? {
      MatchSplits(s);
    }
  }

  /** A split of the regex ends the run of format characters, or stops one short of it at a '-'. */
  lemma SplitsNearRun(s: string)
    ensures var n := FormatRun(s);
      forall j :: SplitsAt(s, j) ==> j <= n && (j == n || (j == n - 1 && s[j] == '-'))
  {
    var n := FormatRun(s);
    forall j | SplitsAt(s, j) ensures j <= n && (j == n || (j == n - 1 && s[j] == '-'))
    {
    }
  }

  /** The format of a match is a split of the regex. */
  lemma MatchSplits(s: string)
    requires MatchDateExpr(s).Some?
    ensures var e := MatchDateExpr(s).value;
      SplitsAt(s, |e.format|) && e.format == s[..|e.format|] && (s[|e.format|] == '+' <==> e.plus)
  {
    var n := FormatRun(s);
    var e := MatchDateExpr(s).value;
    if 1 <= n && n + 1 < |s| && s[n] == '+' && IsDigit(s[n + 1]) {
      assert |e.format| == n;
    } else {
      assert |e.format| == n - 1;
    }
  }

  /** `<format>+<digits>` is a forward offset by the value of the digits. */
  lemma MatchForward(f: string, digits: string, tail: string)
    requires |f| >= 1 && forall i :: 0 <= i < |f| ==> IsFormatChar(f[i])
    requires |digits| >= 1 && AllDigits(digits) && (|tail| == 0 || !IsDigit(tail[0]))
    ensures MatchDateExpr(f + "+" + digits + tail) == Some(DateExpr(f, true, DigitsValue(digits)))
  {
    var rest := digits + tail;
    var s := f + "+" + digits + tail;
    ForwardShape(f, digits, tail);
    FormatRunOf(f, "+" + rest);
    DigitRunOf(digits, tail);
    assert rest[..|digits|] == digits;
    ForwardAt(s, |f|);
  }

  lemma ForwardShape(f: string, digits: string, tail: string)
    requires |digits| >= 1
    ensures var s := f + "+" + digits + tail;
            s == f + ("+" + (digits + tail)) && s[..|f|] == f && s[|f|] == '+'
            && s[|f| + 1..] == digits + tail && s[|f| + 1] == digits[0]
  {
  }

  lemma ForwardAt(s: string, n: nat)
    requires FormatRun(s) == n && 1 <= n && n + 1 < |s| && s[n] == '+' && IsDigit(s[n + 1])
    ensures MatchDateExpr(s) == Some(DateExpr(s[..n], true, DigitsValue(s[n + 1..][..DigitRun(s[n + 1..])])))
  {
  }

  /** `<format>-<digits>` is a backward offset: the last '-' is the sign. */
  lemma MatchBackward(f: string, digits: string, tail: string)
    requires |f| >= 1 && forall i :: 0 <= i < |f| ==> IsFormatChar(f[i])
    requires |digits| >= 1 && AllDigits(digits) && (|tail| == 0 || !IsDigit(tail[0]))
    ensures MatchDateExpr(f + "-" + digits + tail) == Some(DateExpr(f, false, DigitsValue(digits)))
  {
    var rest := digits + tail;
    var g := f + "-";
    var s := f + "-" + digits + tail;
    BackwardShape(f, digits, tail);
    SignFormatChars(f);
    FormatRunOf(g, rest);
    DigitRunOf(digits, tail);
    assert rest[..|digits|] == digits;
    BackwardAt(s, |g|);
  }

  lemma SignFormatChars(f: string)
    requires forall i :: 0 <= i < |f| ==> IsFormatChar(f[i])
    ensures var g := f + "-"; forall i :: 0 <= i < |g| ==> IsFormatChar(g[i])
  {
  }

  lemma BackwardShape(f: string, digits: string, tail: string)
    requires |digits| >= 1
    ensures var s := f + "-" + digits + tail;
            s == (f + "-") + (digits + tail) && s[..|f|] == f && s[|f|] == '-'
            && s[|f| + 1..] == digits + tail && s[|f| + 1] == digits[0]
  {
  }

  lemma BackwardAt(s: string, n: nat)
    requires FormatRun(s) == n && 2 <= n < |s| && s[n - 1] == '-' && IsDigit(s[n])
    ensures MatchDateExpr(s) == Some(DateExpr(s[..n - 1], false, DigitsValue(s[n..][..DigitRun(s[n..])])))
  {
  }

  lemma IsoFormatChars()
    ensures forall i :: 0 <= i < |"yyyy-MM-dd"| ==> IsFormatChar("yyyy-MM-dd"[i])
  {
  }

  /**
   * The documented forms: `yyyy-MM-dd+1` is one day ahead, and in
   * `yyyy-MM-dd-1` the last '-' is the sign.
   */
  lemma MatchDateExprExamples()
    ensures MatchDateExpr("yyyy-MM-dd+1") == Some(DateExpr("yyyy-MM-dd", true, 1))
    ensures MatchDateExpr("yyyy-MM-dd-1") == Some(DateExpr("yyyy-MM-dd", false, 1))
  {
    IsoFormatChars();
    assert DigitsValue("1") == 1;
    MatchForward("yyyy-MM-dd", "1", "");
    assert "yyyy-MM-dd" + "+" + "1" + "" == "yyyy-MM-dd+1";
    MatchBackward("yyyy-MM-dd", "1", "");
    assert "yyyy-MM-dd" + "-" + "1" + "" == "yyyy-MM-dd-1";
  }

  // ---------------------------------------------------------------------
  // The format table of `_convert_to_python_date_format`

  /** The rewrite table, applied in this order. */
  const FormatTable: seq<(string, string)> :=
    [("yyyy", "%Y"), ("MM", "%m"), ("dd", "%d"), ("HH", "%H"), ("mm", "%M"), ("ss", "%S")]

  lemma FormatTableKeys()
    ensures forall i :: 0 <= i < |FormatTable| ==> |FormatTable[i].0| > 0
  {
  }

  /** A date format with every table token replaced, in table order. */
  function ConvertFormat(fmt: string): string
  {
    FormatTableKeys();
    ReplaceChain(fmt, FormatTable)
  }

  /** `_convert_to_python_date_format`: the loop over the table. */
  method ConvertToPythonDateFormat(fmt: string) returns (result: string)
    ensures result == ConvertFormat(fmt)
  {
    FormatTableKeys();
    result := fmt;
    var i := 0;
    while i < |FormatTable|
      invariant 0 <= i <= |FormatTable|
      invariant ReplaceChain(result, FormatTable[i..]) == ReplaceChain(fmt, FormatTable)
    {
      assert FormatTable[i..][1..] == FormatTable[i + 1..];
      result := ReplaceAll(result, FormatTable[i].0, FormatTable[i].1);
      i := i + 1;
    }
  }

  /** The conversion is the six replacements, one after the other. */
  lemma ConvertFormatSteps(fmt: string)
    ensures ConvertFormat(fmt)
      == ReplaceAll(ReplaceAll(ReplaceAll(ReplaceAll(ReplaceAll(ReplaceAll(
           fmt, "yyyy", "%Y"), "MM", "%m"), "dd", "%d"), "HH", "%H"), "mm", "%M"), "ss", "%S")
  {
    FormatTableKeys();
    var t := FormatTable;
    assert t[1..][1..][1..][1..][1..][1..] == [];
  }

  lemma IsoYear()
    ensures ReplaceAll("yyyy-MM-dd", "yyyy", "%Y") == "%Y-MM-dd"
  {
    assert "yyyy-MM-dd" == "yyyy" + "-MM-dd";
    ReplaceAtFront("yyyy", "-MM-dd", "%Y");
    assert "-MM-dd" == "-MM-dd" + "";
    ReplaceKeepsPrefix("-MM-dd", "", "yyyy", "%Y");
  }

  lemma IsoMonth()
    ensures ReplaceAll("%Y-MM-dd", "MM", "%m") == "%Y-%m-dd"
  {
    assert "%Y-MM-dd" == "%Y-" + ("MM" + "-dd");
    ReplaceKeepsPrefix("%Y-", "MM" + "-dd", "MM", "%m");
    ReplaceAtFront("MM", "-dd", "%m");
    assert "-dd" == "-dd" + "";
    ReplaceKeepsPrefix("-dd", "", "MM", "%m");
  }

  lemma IsoDay()
    ensures ReplaceAll("%Y-%m-dd", "dd", "%d") == "%Y-%m-%d"
  {
    assert "%Y-%m-dd" == "%Y-%m-" + ("dd" + "");
    ReplaceKeepsPrefix("%Y-%m-", "dd" + "", "dd", "%d");
    ReplaceAtFront("dd", "", "%d");
  }

  /** A text without the pattern's first character is left as it is. */
  lemma ReplaceNoFirstChar(s: string, o: string, n: string)
    requires |o| > 0 && o[0] !in s
    ensures ReplaceAll(s, o, n) == s
  {
    assert s == s + "";
    ReplaceKeepsPrefix(s, "", o, n);
  }

  lemma IsoMinute()
    ensures ReplaceAll("%Y-%m-%d", "mm", "%M") == "%Y-%m-%d"
  {
    assert "%Y-%m-%d" == "%Y-%" + "m-%d";
    ReplaceKeepsPrefix("%Y-%", "m-%d", "mm", "%M");
    assert "m-%d" == ['m'] + "-%d";
    assert (['m'] + "-%d")[..2] == "m-" && "mm"[1] != "m-"[1];
    ReplaceSkipsChar('m', "-%d", "mm", "%M");
    ReplaceNoFirstChar("-%d", "mm", "%M");
  }

  lemma IsoTime()
    ensures ReplaceAll(ReplaceAll(ReplaceAll("%Y-%m-%d", "HH", "%H"), "mm", "%M"), "ss", "%S") == "%Y-%m-%d"
  {
    ReplaceNoFirstChar("%Y-%m-%d", "HH", "%H");
    IsoMinute();
    ReplaceNoFirstChar("%Y-%m-%d", "ss", "%S");
  }

  /** `yyyy-MM-dd`, the scheduler's usual format, becomes `%Y-%m-%d`. */
  lemma ConvertIsoFormat()
    ensures ConvertFormat("yyyy-MM-dd") == "%Y-%m-%d"
  {
    ConvertFormatSteps("yyyy-MM-dd");
    IsoYear();
    IsoMonth();
    IsoDay();
    IsoTime();
  }

  /** A replacement chain changes nothing when none of its keys occurs. */
  lemma {:induction false} ReplaceChainAbsent(s: string, table: seq<(string, string)>)
    requires forall i :: 0 <= i < |table| ==> |table[i].0| > 0 && !Contains(s, table[i].0)
    ensures ReplaceChain(s, table) == s
    decreases |table|
  {
    if |table| > 0 {
      ReplaceAbsent(s, table[0].0, table[0].1);
      ReplaceChainAbsent(s, table[1..]);
    }
  }

  // ---------------------------------------------------------------------
  // Resolution

  /** The store shape the scheduler keeps: parameter name to value. */
  type Store = map<string, Value>

  /** The text a matched date expression stands for at `now`. */
  function DateText(e: DateExpr, now: DateTime): string
    requires ValidTime(now)
  {
    Strftime(ConvertFormat(e.format), ShiftDays(now, e.Offset()))
  }

  /**
   * `replace_var`: what one reference is replaced by.  `depth` is how many
   * nested `resolve_value` calls the interpreter still allows; None stands
   * for the RecursionError raised once it is used up.
   */
  function ResolveRef(store: Store, now: DateTime, name: string, depth: nat): Option<string>
    requires ValidTime(now)
    decreases depth, 0
  {
    match MatchDateExpr(name)
    case Some(e) => Some(DateText(e, now))
    case None =>
      if name in store then
        match store[name]
        case Str(v) => if depth == 0 then None else ResolvePieces(store, now, Scan(v), depth - 1)
        case other => Some(Show(other))
      else Some(RefText(name))
  }

  /** `re.sub(pattern, replace_var, ...)` over scanned pieces; any error aborts the whole call. */
  function ResolvePieces(store: Store, now: DateTime, ps: seq<Piece>, depth: nat): Option<string>
    requires ValidTime(now)
    decreases depth, |ps|
  {
    if |ps| == 0 then Some("")
    else
      var head := match ps[0] case Char(c) => Some([c]) case Ref(name) => ResolveRef(store, now, name, depth);
      var tail := ResolvePieces(store, now, ps[1..], depth);
      if head.Some? && tail.Some? then Some(head.value + tail.value) else None
  }

  /** `resolve_value` on a string. */
  function Resolve(store: Store, now: DateTime, s: string, depth: nat): Option<string>
    requires ValidTime(now)
  {
    ResolvePieces(store, now, Scan(s), depth)
  }

  /** Literal pieces resolve to themselves. */
  lemma {:induction false} LiteralPieces(store: Store, now: DateTime, ps: seq<Piece>, depth: nat)
    requires ValidTime(now)
    requires forall i :: 0 <= i < |ps| ==> ps[i].Char?
    ensures ResolvePieces(store, now, ps, depth) == Some(Render(ps))
    decreases |ps|
  {
    if |ps| > 0 {
      LiteralPieces(store, now, ps[1..], depth);
    }
  }

  /** A text without a reference is returned unchanged. */
  lemma ResolveNoRefs(store: Store, now: DateTime, s: string, depth: nat)
    requires ValidTime(now) && NoRefs(s)
    ensures Resolve(store, now, s, depth) == Some(s)
  {
    LiteralPieces(store, now, Scan(s), depth);
    RenderScan(s);
  }

  /** Once resolution succeeds, a larger depth budget gives the same text. */
  lemma {:induction false} ResolveDepthMonotone(store: Store, now: DateTime, ps: seq<Piece>, d1: nat, d2: nat)
    requires ValidTime(now) && d1 <= d2
    requires ResolvePieces(store, now, ps, d1).Some?
    ensures ResolvePieces(store, now, ps, d2) == ResolvePieces(store, now, ps, d1)
    decreases d1, |ps|
  {
    if |ps| > 0 {
      ResolveDepthMonotone(store, now, ps[1..], d1, d2);
      match ps[0]
      case Char(_) =>
      case Ref(name) =>
        if MatchDateExpr(name).None? && name in store && store[name].Str? && d1 > 0 {
          ResolveDepthMonotone(store, now, Scan(store[name].s), d1 - 1, d2 - 1);
        }
    }
  }

  /** The pieces of a lone reference. */
  lemma ScanRef(name: string)
    requires |name| >= 1 && '}' !in name
    ensures Scan(RefText(name)) == [Ref(name)]
  {
    var s := RefText(name);
    assert s[2..] == name + "}";
    CharIndexAt(s[2..], '}', |name|);
    assert s[2..2 + |name|] == name;
    assert s[3 + |name|..] == [];
  }

  lemma ResolveOnePiece(store: Store, now: DateTime, name: string, depth: nat)
    requires ValidTime(now)
    ensures ResolvePieces(store, now, [Ref(name)], depth) == ResolveRef(store, now, name, depth)
  {
    var ps := [Ref(name)];
    assert ps[1..] == [];
    assert ResolvePieces(store, now, ps[1..], depth) == Some("");
    var h := ResolveRef(store, now, name, depth);
    assert h.Some? ==> h.value + "" == h.value;
  }

  /** A text that is one reference resolves as that reference does. */
  lemma ResolveLoneRef(store: Store, now: DateTime, name: string, depth: nat)
    requires ValidTime(now) && |name| >= 1 && '}' !in name
    ensures Resolve(store, now, RefText(name), depth) == ResolveRef(store, now, name, depth)
  {
    ScanRef(name);
    ResolveOnePiece(store, now, name, depth);
  }

  /** A stored string is resolved again: `${a}` resolves as the value of `a` does. */
  lemma ResolveStoredString(store: Store, now: DateTime, name: string, depth: nat)
    requires ValidTime(now) && |name| >= 1 && '}' !in name
    requires MatchDateExpr(name).None? && name in store && store[name].Str?
    ensures Resolve(store, now, RefText(name), depth + 1) == Resolve(store, now, store[name].s, depth)
    ensures Resolve(store, now, RefText(name), 0) == None
  {
    ResolveLoneRef(store, now, name, depth + 1);
    ResolveLoneRef(store, now, name, 0);
  }

  /** A stored non-string becomes its `str`; an unknown name stays as written. */
  lemma ResolveOtherRefs(store: Store, now: DateTime, name: string, depth: nat)
    requires ValidTime(now) && |name| >= 1 && '}' !in name && MatchDateExpr(name).None?
    ensures name in store && !store[name].Str? ==> Resolve(store, now, RefText(name), depth) == Some(Show(store[name]))
    ensures name !in store ==> Resolve(store, now, RefText(name), depth) == Some(RefText(name))
  {
    ResolveLoneRef(store, now, name, depth);
  }

  /** A date expression wins over the store, whatever the store holds. */
  lemma ResolveDateRef(store: Store, now: DateTime, name: string, depth: nat)
    requires ValidTime(now) && |name| >= 1 && '}' !in name && MatchDateExpr(name).Some?
    ensures Resolve(store, now, RefText(name), depth) == Some(DateText(MatchDateExpr(name).value, now))
  {
    ResolveLoneRef(store, now, name, depth);
  }

  /**
   * `${yyyy-MM-dd+1}` resolves to tomorrow's date as `YYYY-MM-DD`, a text
   * that reads back as that date when its year has four digits.
   */
  lemma ResolveTomorrow(store: Store, now: DateTime, depth: nat)
    requires ValidTime(now)
    ensures Resolve(store, now, "${yyyy-MM-dd+1}", depth) == Some(IsoText(AddDays(now.date, 1)))
    ensures 1000 <= AddDays(now.date, 1).year <= 9999 ==>
      ParseIso(IsoText(AddDays(now.date, 1))) == Some(AddDays(now.date, 1))
  {
    TomorrowText(now);
    ResolveTomorrowRef(store, now, depth);
    if 1000 <= AddDays(now.date, 1).year <= 9999 {
      ParseIsoText(AddDays(now.date, 1));
    }
  }

  lemma TomorrowText(now: DateTime)
    requires ValidTime(now)
    ensures DateText(DateExpr("yyyy-MM-dd", true, 1), now) == IsoText(AddDays(now.date, 1))
  {
    ConvertIsoFormat();
    StrftimeIso(ShiftDays(now, 1));
  }

  lemma ResolveTomorrowRef(store: Store, now: DateTime, depth: nat)
    requires ValidTime(now)
    ensures Resolve(store, now, "${yyyy-MM-dd+1}", depth) == Some(DateText(DateExpr("yyyy-MM-dd", true, 1), now))
  {
    var name := "yyyy-MM-dd+1";
    assert RefText(name) == "${yyyy-MM-dd+1}";
    assert '}' !in name;
    MatchDateExprExamples();
    ResolveDateRef(store, now, name, depth);
  }

  /** A parameter that refers to itself exhausts any depth budget. */
  lemma {:induction false} SelfReferenceDiverges(store: Store, now: DateTime, name: string, depth: nat)
    requires ValidTime(now) && |name| >= 1 && '}' !in name && MatchDateExpr(name).None?
    requires name in store && store[name] == Str(RefText(name))
    ensures Resolve(store, now, RefText(name), depth) == None
  {
    ResolveStoredString(store, now, name, if depth == 0 then 0 else depth - 1);
    if depth > 0 {
      SelfReferenceDiverges(store, now, name, depth - 1);
    }
  }

  /**
   * A rank on stored names with every stored string referring only to
   * lower-ranked stored names (date expressions and unknown names aside):
   * the references are acyclic.
   */
  ghost predicate Ranked(store: Store, rank: map<string, nat>)
  {
    forall n :: n in store ==>
      (n in rank && (store[n].Str? ==> RefsBelow(store, rank, Scan(store[n].s), rank[n])))
  }

  /** Every stored, non-date name referenced in `ps` has rank below `bound`. */
  ghost predicate RefsBelow(store: Store, rank: map<string, nat>, ps: seq<Piece>, bound: nat)
  {
    forall i :: 0 <= i < |ps| && ps[i].Ref? && ps[i].name in store && MatchDateExpr(ps[i].name).None?
      ==> ps[i].name in rank && rank[ps[i].name] < bound
  }

  /** With acyclic references, a depth budget above the ranks is enough: resolution terminates. */
  lemma {:induction false} RankedResolves(store: Store, rank: map<string, nat>, now: DateTime, ps: seq<Piece>, depth: nat)
    requires ValidTime(now) && Ranked(store, rank) && RefsBelow(store, rank, ps, depth)
    ensures ResolvePieces(store, now, ps, depth).Some?
    decreases depth, |ps|
  {
    if |ps| > 0 {
      assert RefsBelow(store, rank, ps[1..], depth) by {
        forall i | 0 <= i < |ps[1..]| ensures ps[1..][i] == ps[i + 1] { }
      }
      RankedResolves(store, rank, now, ps[1..], depth);
      match ps[0]
      case Char(_) =>
      case Ref(name) =>
        if MatchDateExpr(name).None? && name in store && store[name].Str? {
          assert rank[name] < depth;
          RefsBelowWeaken(store, rank, Scan(store[name].s), rank[name], depth - 1);
          RankedResolves(store, rank, now, Scan(store[name].s), depth - 1);
        }
    }
  }

  lemma RefsBelowWeaken(store: Store, rank: map<string, nat>, ps: seq<Piece>, b1: nat, b2: nat)
    requires RefsBelow(store, rank, ps, b1) && b1 <= b2 + 1
    ensures RefsBelow(store, rank, ps, b2 + 1)
  {
  }

  /** `resolve_value`: a non-string is returned as it is; a string is resolved in `store`. */
  function ResolveIn(store: Store, v: Value, now: DateTime, depth: nat): (r: Option<Value>)
    requires ValidTime(now)
    ensures !v.Str? ==> r == Some(v)
    ensures v.Str? && NoRefs(v.s) ==> r == Some(v)
  {
    if v.Str? then
      var r := Resolve(store, now, v.s, depth);
      assert NoRefs(v.s) ==> r == Some(v.s) by {
        if NoRefs(v.s) { ResolveNoRefs(store, now, v.s, depth); }
      }
      if r.Some? then Some(Str(r.value)) else None
    else Some(v)
  }

  /** The parameter manager: the store, updated in place by `set_params`. */
  class ParamManager {
    var params: Store

    constructor()
      ensures params == map[]
    {
      params := map[];
    }

    /** `set_params`: `dict.update`, so the argument's entries win and the rest stay. */
    method SetParams(p: Store)
      modifies this
      ensures params == old(params) + p
      ensures forall k :: k in p ==> params[k] == p[k]
      ensures forall k :: k in old(params) && k !in p ==> params[k] == old(params)[k]
      ensures params.Keys == old(params).Keys + p.Keys
    {
      params := params + p;
    }

    /** `get_param`: the stored value, or the default for an absent key. */
    function GetParam(key: string, default: Value): (r: Value)
      reads this
      ensures key in params ==> r == params[key]
      ensures key !in params ==> r == default
    {
      if key in params then params[key] else default
    }

    /** `resolve_value`, on the current store. */
    function ResolveValue(v: Value, now: DateTime, depth: nat): (r: Option<Value>)
      requires ValidTime(now)
      reads this
      ensures r == ResolveIn(params, v, now, depth)
    {
      ResolveIn(params, v, now, depth)
    }
  }
}
