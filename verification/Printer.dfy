// The printer of values (string/write) and the string port it writes to.
module Printer {
  import opened Values

  // ---- what is printed

  // The symbol's name has 93 characters at most.
  const NAME_MAX := 93

  function Clip(s: string): (r: string)
    ensures r <= s && |r| <= NAME_MAX && (|s| <= NAME_MAX ==> r == s)
  {
    if |s| <= NAME_MAX then s else s[..NAME_MAX]
  }

  function DigitChar(d: nat): (c: char)
    requires d < 10
    ensures c as int == '0' as int + d
  {
    ('0' as int + d) as char
  }

  function Digits(n: nat): (s: string)
    ensures s != []
  {
    if n < 10 then [DigitChar(n)] else Digits(n / 10) + [DigitChar(n % 10)]
  }

  function Decimal(i: int): string {
    if i < 0 then "-" + Digits(-i) else Digits(i)
  }

  function Escaped(c: char): string {
    if c == '\U{07}' then "\\a"
    else if c == '\U{08}' then "\\b"
    else if c == '\t' then "\\t"
    else if c == '\n' then "\\n"
    else if c == '\U{0B}' then "\\v"
    else if c == '\U{0C}' then "\\f"
    else if c == '\r' then "\\r"
    else if c == '\U{1B}' then "\\e"
    else if c == '\"' then "\\\""
    else if c == '\\' then "\\\\"
    else [c]
  }

  // The rest of a string literal; a NUL ends it early.
  function Quoted(s: string): string {
    if s == [] || s[0] == '\0' then "\"" else Escaped(s[0]) + Quoted(s[1..])
  }

  // Values whose text does not depend on addresses or on floats.
  predicate Shown(v: Value) {
    match v
    case Pair(a, d) => Shown(a) && Shown(d)
    case Bytecode(_) => false
    case Lambda(_) => false
    case Env(_) => false
    case Opaque(_) => false
    case _ => true
  }

  // (quote x)
  predicate IsQuote(v: Value) {
    v.Pair? && v.car == Sym("quote") && v.cdr.Pair? && v.cdr.cdr.Nil?
  }

  function PrintedAtom(v: Value): string
    requires Shown(v) && !v.Pair?
  {
    match v
    case Nil => "#nil"
    case Bool(b) => if b then "#t" else "#f"
    case Int(i) => Decimal(i)
    case Sym(s) => Clip(s)
    case Kw(k) => ":" + Clip(k)
    case Str(s) => "\"" + Quoted(s)
  }

  function Printed(v: Value): string
    requires Shown(v)
    decreases v, 1
  {
    if !v.Pair? then PrintedAtom(v)
    else
      assert Shown(v.cdr);
      if IsQuote(v) then "'" + Printed(v.cdr.car) else "(" + Tail(v, true) + ")"
  }

  // The rest of a list, which the loop leaves at the first #nil or #f.
  function Tail(v: Value, first: bool): string
    requires Shown(v)
    decreases v, 0
  {
    if !Truthy(v) then ""
    else
      (if first then "" else " ") +
      if v.Pair? then Printed(v.car) + Tail(v.cdr, false) else ". " + PrintedAtom(v)
  }

  // ---- one line

  // The characters 7 to 13 and 27: line ends and the like.
  predicate Control(c: char) { 7 <= c as int <= 13 || c as int == 27 }

  predicate Clean(s: string) { forall i :: 0 <= i < |s| ==> !Control(s[i]) }

  // Names are printed as they are; these hold no control characters.
  predicate CleanNames(v: Value) {
    match v
    case Sym(s) => Clean(s)
    case Kw(k) => Clean(k)
    case Pair(a, d) => CleanNames(a) && CleanNames(d)
    case _ => true
  }

  lemma {:induction false} DigitsAreClean(n: nat)
    ensures Clean(Digits(n))
  {
    if n >= 10 {
      DigitsAreClean(n / 10);
    }
  }

  lemma {:induction false} QuotedIsClean(s: string)
    ensures Clean(Quoted(s))
    decreases |s|
  {
    if s != [] && s[0] != '\0' {
      QuotedIsClean(s[1..]);
      assert Clean(Escaped(s[0]));
    }
  }

  lemma AtomIsClean(v: Value)
    requires Shown(v) && !v.Pair? && CleanNames(v)
    ensures Clean(PrintedAtom(v))
  {
    hide Quoted, Digits;
    match v
    case Int(i) => DigitsAreClean(if i < 0 then -i else i);
    case Str(s) => QuotedIsClean(s);
    case _ =>
  }

  // Whatever its strings hold, a value is printed on one line.
  lemma {:induction false} PrintedIsOneLine(v: Value)
    requires Shown(v) && CleanNames(v)
    ensures forall i :: 0 <= i < |Printed(v)| ==> !(7 <= Printed(v)[i] as int <= 13) && Printed(v)[i] as int != 27
    decreases v, 1
  {
    hide PrintedAtom;
    assert Clean(Printed(v)) by {
      if !v.Pair? {
        AtomIsClean(v);
      } else if IsQuote(v) {
        PrintedIsOneLine(v.cdr.car);
      } else {
        TailIsClean(v, true);
      }
    }
  }

  lemma {:induction false} TailIsClean(v: Value, first: bool)
    requires Shown(v) && CleanNames(v)
    ensures Clean(Tail(v, first))
    decreases v, 0
  {
    hide Printed, PrintedAtom;
    if Truthy(v) {
      if v.Pair? {
        PrintedIsOneLine(v.car);
        TailIsClean(v.cdr, false);
      } else {
        AtomIsClean(v);
      }
    }
  }
}
