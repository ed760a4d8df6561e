// Reading what was printed gives the value back.
module ReadBack {
  import opened Values
  import opened Primitives
  import opened Printer
  import opened Parser
  import opened Ports
  import opened TextReader

  // ---- the values that can be read back

  const INT_LIMIT := 1_000_000_000_000_000_000

  predicate PlainChar(c: char) { !EndsWord(c) && c != ':' && c != '.' }

  predicate AllPlain(s: string) { forall i :: 0 <= i < |s| ==> PlainChar(s[i]) }

  // Reads as a symbol, not as a number or an unquote.
  predicate PlainSymbol(s: string) {
    && 0 < |s| <= NAME_MAX && AllPlain(s)
    && s[0] != '~' && !IsDigit(s[0]) && !(s[0] == '-' && |s| > 1 && IsDigit(s[1]))
  }

  predicate PlainKeyword(s: string) { |s| <= NAME_MAX && AllPlain(s) }

  predicate Readable(v: Value) {
    match v
    case Nil => true
    case Bool(_) => true
    case Int(i) => -INT_LIMIT < i < INT_LIMIT
    case Sym(s) => PlainSymbol(s)
    case Kw(k) => PlainKeyword(k)
    case Str(s) => |UpToNul(s)| + 1 < BUFFER_SIZE
    case Pair(a, d) => Readable(a) && Readable(d)
    case _ => false
  }

  // The printer stops at a NUL.
  function UpToNul(s: string): (r: string)
    ensures '\0' !in r && (r == s <==> '\0' !in s) && Quoted(r) == Quoted(s)
  {
    if s == [] || s[0] == '\0' then []
    else
      var r := [s[0]] + UpToNul(s[1..]);
      assert r[1..] == UpToNul(s[1..]);
      r
  }

  // What printing keeps of a value: strings up to a NUL, and lists without a
  // final #f.
  function Kept(v: Value): Value {
    match v
    case Str(s) => Str(UpToNul(s))
    case Pair(a, d) => Pair(Kept(a), if d == Bool(false) then Nil else Kept(d))
    case _ => v
  }

  predicate Lossless(v: Value) {
    match v
    case Str(s) => '\0' !in s
    case Pair(a, d) => Lossless(a) && Lossless(d) && d != Bool(false)
    case _ => true
  }

  lemma {:induction false} KeptIff(v: Value)
    ensures Kept(v) == v <==> Lossless(v)
  {
    if v.Pair? {
      KeptIff(v.car);
      KeptIff(v.cdr);
    }
  }

  lemma {:induction false} ReadableIsShown(v: Value)
    requires Readable(v)
    ensures Shown(v)
  {
    if v.Pair? {
      ReadableIsShown(v.car);
      ReadableIsShown(v.cdr);
    }
  }

  // ---- text in place

  predicate On(t: string, p: nat, s: string) { p + |s| <= |t| && t[p..p + |s|] == s }

  lemma OnSplit(t: string, p: nat, a: string, b: string)
    ensures On(t, p, a + b) <==> On(t, p, a) && On(t, p + |a|, b)
  {
    if On(t, p, a + b) {
      assert t[p..p + |a|] == t[p..p + |a + b|][..|a|];
      assert t[p + |a|..p + |a| + |b|] == t[p..p + |a + b|][|a|..];
    }
    if On(t, p, a) && On(t, p + |a|, b) {
      assert t[p..p + |a + b|] == t[p..p + |a|] + t[p + |a|..p + |a| + |b|];
    }
  }

  lemma OnAt(t: string, p: nat, s: string, i: nat)
    requires On(t, p, s) && i < |s|
    ensures p + i < |t| && t[p + i] == s[i]
  {
    assert t[p..p + |s|][i] == t[p + i];
  }

  // What follows a printed value: the end, white space, or a closing bracket.
  predicate Stops(t: string, p: nat) { p <= |t| && (p == |t| || IsSpace(t[p]) || Closing(t[p])) }

  // The reader may skip the spaces behind a symbol.
  predicate Behind(t: string, e: nat, q: nat) { e <= |t| && (q == e || q == SkipSpace(t, e)) }

  // ---- atoms

  lemma {:induction false} WordEnds(t: string, p: nat, s: string)
    requires On(t, p, s) && (forall i :: 0 <= i < |s| ==> PlainChar(s[i])) && Stops(t, p + |s|)
    ensures SkipWord(t, p) == p + |s|
    decreases |s|
  {
    if s != [] {
      OnAt(t, p, s, 0);
      OnSplit(t, p, s[..1], s[1..]);
      assert s == s[..1] + s[1..];
      WordEnds(t, p + 1, s[1..]);
    }
  }

  lemma SymbolChar(t: string, p: nat, buf: string, keyword: bool)
    requires p < |t| && PlainChar(t[p]) && |buf| < SYMBOL_SIZE
    ensures SymbolFrom(t, p, buf, keyword) == SymbolFrom(t, p + 1, buf + [t[p]], keyword)
  {
    hide EndsWord;
  }

  lemma SymbolEnds(t: string, p: nat, buf: string, keyword: bool)
    requires Stops(t, p) && |buf| < SYMBOL_SIZE
    ensures SymbolFrom(t, p, buf, keyword) == FinishSymbol(t, p, buf, keyword)
  {
    hide FinishSymbol;
  }

  lemma {:induction false} SymbolReads(t: string, p: nat, s: string, buf: string, keyword: bool)
    requires On(t, p, s) && AllPlain(s) && Stops(t, p + |s|) && |buf| + |s| < SYMBOL_SIZE
    ensures SymbolFrom(t, p, buf, keyword) == FinishSymbol(t, p + |s|, buf + s, keyword)
    decreases |s|
  {
    hide SymbolFrom, FinishSymbol, Stops, PlainChar;
    if s == [] {
      SymbolEnds(t, p, buf, keyword);
      assert buf + s == buf;
    } else {
      OnAt(t, p, s, 0);
      assert s == s[..1] + s[1..];
      OnSplit(t, p, s[..1], s[1..]);
      SymbolChar(t, p, buf, keyword);
      SymbolReads(t, p + 1, s[1..], buf + [s[0]], keyword);
      assert buf + [s[0]] + s[1..] == buf + s;
    }
  }

  // A word that is not a number.
  predicate StartsSymbol(c: char, d: char) {
    c != '\0' && !NonSymbol(c) && c != '~' && !IsDigit(c) && !(c == '-' && IsDigit(d))
  }

  lemma ValueIsSymbol(t: string, p: nat)
    requires p < |t| && StartsSymbol(t[p], At(t, p + 1))
    ensures ReadValue(t, p) == SymbolFrom(t, p, "", false)
  {
    hide SymbolFrom, NumberFrom, StringFrom, SpecialFrom, SkipLine, IsDigit;
  }

  lemma SymReadsBack(t: string, p: nat, s: string)
    requires PlainSymbol(s) && On(t, p, s) && Stops(t, p + |s|)
    ensures ReadValue(t, p) == Read(Got(Sym(s)), SkipSpace(t, p + |s|))
  {
    hide ReadValue, SymbolFrom, EndsWord, SkipSpace;
    OnAt(t, p, s, 0);
    SecondIsNoDigit(t, p, s);
    PlainIsWord(s[0]);
    ValueIsSymbol(t, p);
    SymbolReads(t, p, s, "", false);
    assert "" + s == s;
  }

  lemma PlainIsWord(c: char)
    requires PlainChar(c)
    ensures c != '\0' && !NonSymbol(c) && !IsSpace(c)
  {
  }

  lemma SecondIsNoDigit(t: string, p: nat, s: string)
    requires PlainSymbol(s) && On(t, p, s) && Stops(t, p + |s|)
    ensures s[0] == '-' ==> !IsDigit(At(t, p + 1))
  {
    hide EndsWord;
    if |s| > 1 {
      OnAt(t, p, s, 1);
    }
  }

  lemma KwReadsBack(t: string, p: nat, k: string)
    requires PlainKeyword(k) && On(t, p, ":" + k) && Stops(t, p + 1 + |k|)
    ensures ReadValue(t, p) == Read(Got(Kw(k)), SkipSpace(t, p + 1 + |k|))
  {
    hide ReadValue, SymbolFrom, EndsWord, SkipSpace, FinishSymbol;
    OnAt(t, p, ":" + k, 0);
    OnSplit(t, p, ":", k);
    ValueIsSymbol(t, p);
    ColonStarts(t, p);
    SymbolReads(t, p + 1, k, ":", true);
    KeywordEnds(t, p + 1 + |k|, k);
  }

  lemma ColonStarts(t: string, p: nat)
    requires p < |t| && t[p] == ':'
    ensures SymbolFrom(t, p, "", false) == SymbolFrom(t, p + 1, ":", true)
  {
    assert "" + [':'] == ":";
  }

  lemma KeywordEnds(t: string, p: nat, k: string)
    requires AllPlain(k) && p <= |t|
    ensures FinishSymbol(t, p, ":" + k, true) == Read(Got(Kw(k)), SkipSpace(t, p))
  {
    hide EndsWord, SkipSpace;
    var buf := ":" + k;
    assert buf[1..] == k;
    if k == [] {
      assert buf[..|buf| - 1] == "";
    } else {
      assert buf[|buf| - 1] == k[|k| - 1];
    }
  }

  lemma CharReads(t: string, p: nat, c: char, buf: string)
    requires On(t, p, Escaped(c)) && c != '\0' && |buf| + 1 < BUFFER_SIZE
    ensures StringFrom(t, p, buf) == StringFrom(t, p + |Escaped(c)|, buf + [c])
  {
    OnAt(t, p, Escaped(c), 0);
    if |Escaped(c)| > 1 {
      OnAt(t, p, Escaped(c), 1);
    }
  }

  lemma {:induction false} StringReads(t: string, p: nat, s: string, buf: string)
    requires On(t, p, Quoted(s)) && '\0' !in s && |buf| + |s| + 1 < BUFFER_SIZE
    ensures StringFrom(t, p, buf) == Read(Got(Str(buf + s)), p + |Quoted(s)|)
    decreases |s|
  {
    hide Escaped, On;
    if s == [] {
      OnAt(t, p, Quoted(s), 0);
      OnSplit(t, p, Quoted(s), "");
      QuoteEnds(t, p, buf);
      assert buf + s == buf;
    } else {
      hide StringFrom;
      var e := Escaped(s[0]);
      OnSplit(t, p, e, Quoted(s[1..]));
      CharReads(t, p, s[0], buf);
      StringReads(t, p + |e|, s[1..], buf + [s[0]]);
      assert buf + [s[0]] + s[1..] == buf + s;
    }
  }

  lemma QuoteEnds(t: string, p: nat, buf: string)
    requires At(t, p) == '\"' && |buf| + 1 < BUFFER_SIZE
    ensures p < |t| && StringFrom(t, p, buf) == Read(Got(Str(buf)), p + 1)
  {
  }

  // ---- integers

  const MAX_DIGITS := 18

  function Power(base: nat, n: nat): nat { if n == 0 then 1 else base * Power(base, n - 1) }

  lemma {:induction false} DigitCount(n: nat, k: nat)
    requires k > 0
    ensures |Digits(n)| <= k <==> n < Power(10, k)
  {
    if k == 1 {
    } else if n < 10 {
      PowerGrows(k);
    } else {
      DigitCount(n / 10, k - 1);
    }
  }

  lemma {:induction false} PowerGrows(k: nat)
    requires k > 0
    ensures Power(10, k) >= 10
  {
    if k > 1 {
      PowerGrows(k - 1);
    }
  }

  lemma LimitIs()
    ensures Power(10, MAX_DIGITS) == INT_LIMIT
  {
    assert Power(10, 6) == 1_000_000;
    assert Power(10, 12) == 1_000_000_000_000;
  }

  lemma {:induction false} DigitsAreDigits(n: nat, i: nat)
    requires i < |Digits(n)|
    ensures IsDigit(Digits(n)[i])
  {
    if n >= 10 && i < |Digits(n / 10)| {
      DigitsAreDigits(n / 10, i);
    }
  }

  lemma OneDigit(t: string, p: nat, d: nat, acc: nat, digits: nat)
    requires d < 10 && On(t, p, [DigitChar(d)]) && digits < MAX_DIGITS && acc * 10 + d < INT_LIMIT
    ensures DigitsFrom(t, p, 10, MAX_DIGITS, acc, digits) == DigitsFrom(t, p + 1, 10, MAX_DIGITS, acc * 10 + d, digits + 1)
  {
    hide Wrap64;
    OnAt(t, p, [DigitChar(d)], 0);
  }

  lemma {:induction false} DigitsRead(t: string, p: nat, n: nat)
    requires On(t, p, Digits(n)) && |Digits(n)| <= MAX_DIGITS
    ensures DigitsFrom(t, p, 10, MAX_DIGITS, 0, 0) == DigitsFrom(t, p + |Digits(n)|, 10, MAX_DIGITS, n, |Digits(n)|)
    ensures n < INT_LIMIT
  {
    hide DigitsFrom, On, Power;
    DigitCount(n, MAX_DIGITS);
    LimitIs();
    if n < 10 {
      OneDigit(t, p, n, 0, 0);
    } else {
      OnSplit(t, p, Digits(n / 10), [DigitChar(n % 10)]);
      DigitsRead(t, p, n / 10);
      OneDigit(t, p + |Digits(n / 10)|, n % 10, n / 10, |Digits(n / 10)|);
    }
  }

  // The nineteenth digit is refused.
  lemma {:induction false} TooManyDigits(t: string, p: nat, n: nat)
    requires On(t, p, Digits(n)) && |Digits(n)| > MAX_DIGITS
    ensures DigitsFrom(t, p, 10, MAX_DIGITS, 0, 0).item == Failed(LiteralTooBig)
  {
    hide DigitsFrom, On;
    OnSplit(t, p, Digits(n / 10), [DigitChar(n % 10)]);
    if |Digits(n / 10)| > MAX_DIGITS {
      TooManyDigits(t, p, n / 10);
    } else {
      DigitsRead(t, p, n / 10);
      OneTooMany(t, p + MAX_DIGITS, n % 10, n / 10);
    }
  }

  lemma OneTooMany(t: string, p: nat, d: nat, acc: nat)
    requires d < 10 && On(t, p, [DigitChar(d)])
    ensures DigitsFrom(t, p, 10, MAX_DIGITS, acc, MAX_DIGITS).item == Failed(LiteralTooBig)
  {
    OnAt(t, p, [DigitChar(d)], 0);
  }

  lemma NumberEnds(t: string, p: nat, acc: int, digits: nat)
    requires Stops(t, p)
    ensures DigitsFrom(t, p, 10, MAX_DIGITS, acc, digits) == Read(Got(Int(acc)), p) && At(t, p) != '.'
  {
  }

  // Where a number starts, the reader reads one.
  lemma ValueIsNumber(t: string, p: nat, i: int)
    requires On(t, p, Decimal(i))
    ensures ReadValue(t, p) == NumberFrom(t, p, 10, MAX_DIGITS)
    ensures At(t, p) == '-' <==> i < 0
    ensures i < 0 ==> On(t, p + 1, Digits(-i))
    ensures i >= 0 ==> On(t, p, Digits(i))
  {
    hide NumberFrom, SymbolFrom, StringFrom, SpecialFrom, SkipLine, On, Digits, DigitsFrom;
    var n := if i < 0 then -i else i;
    DigitsAreDigits(n, 0);
    OnAt(t, p, Decimal(i), 0);
    if i < 0 {
      OnSplit(t, p, "-", Digits(n));
      OnAt(t, p + 1, Digits(n), 0);
    }
  }

  lemma IntReadsBack(t: string, p: nat, i: int)
    requires -INT_LIMIT < i < INT_LIMIT && On(t, p, Decimal(i)) && Stops(t, p + |Decimal(i)|)
    ensures ReadValue(t, p) == Read(Got(Int(i)), p + |Decimal(i)|)
  {
    hide ReadValue, DigitsFrom, On, Digits, Power, Stops, Wrap64;
    var n := if i < 0 then -i else i;
    LimitIs();
    DigitCount(n, MAX_DIGITS);
    ValueIsNumber(t, p, i);
    DigitsRead(t, if i < 0 then p + 1 else p, n);
    NumberEnds(t, p + |Decimal(i)|, n, |Digits(n)|);
  }

  lemma BigIntFails(t: string, p: nat, i: int)
    requires !(-INT_LIMIT < i < INT_LIMIT) && On(t, p, Decimal(i))
    ensures ReadValue(t, p).item == Failed(LiteralTooBig)
  {
    hide ReadValue, DigitsFrom, On, Digits, Power, Wrap64;
    var n := if i < 0 then -i else i;
    LimitIs();
    DigitCount(n, MAX_DIGITS);
    ValueIsNumber(t, p, i);
    TooManyDigits(t, if i < 0 then p + 1 else p, n);
  }

  // ---- values

  lemma AtomReadsBack(t: string, p: nat, v: Value)
    requires Readable(v) && Shown(v) && !v.Pair? && On(t, p, PrintedAtom(v)) && Stops(t, p + |PrintedAtom(v)|)
    ensures ReadValue(t, p).item == Got(Kept(v)) && Behind(t, p + |PrintedAtom(v)|, ReadValue(t, p).next)
  {
    hide ReadValue, On, Stops, Decimal, Quoted, SkipSpace, AllPlain, PlainSymbol;
    match v
    case Nil => NilReadsBack(t, p);
    case Bool(b) => BoolReadsBack(t, p, b);
    case Int(i) => IntReadsBack(t, p, i);
    case Sym(s) =>
      SymbolFits(s);
      SymReadsBack(t, p, s);
    case Kw(k) => KwReadsBack(t, p, k);
    case Str(s) => StrReadsBack(t, p, UpToNul(s));
  }

  lemma SymbolFits(s: string)
    requires PlainSymbol(s)
    ensures Clip(s) == s
  {
  }

  lemma NilReadsBack(t: string, p: nat)
    requires On(t, p, "#nil") && Stops(t, p + 4)
    ensures ReadValue(t, p) == Read(Got(Nil), p + 4)
  {
    hide SkipWord;
    OnAt(t, p, "#nil", 0);
    OnAt(t, p, "#nil", 1);
    OnSplit(t, p, "#n", "il");
    WordEnds(t, p + 2, "il");
  }

  lemma BoolReadsBack(t: string, p: nat, b: bool)
    requires On(t, p, if b then "#t" else "#f")
    ensures ReadValue(t, p) == Read(Got(Bool(b)), p + 2)
  {
    OnAt(t, p, if b then "#t" else "#f", 0);
    OnAt(t, p, if b then "#t" else "#f", 1);
  }

  lemma StrReadsBack(t: string, p: nat, s: string)
    requires On(t, p, "\"" + Quoted(s)) && |s| + 1 < BUFFER_SIZE && '\0' !in s
    ensures ReadValue(t, p) == Read(Got(Str(s)), p + 1 + |Quoted(s)|)
  {
    hide StringFrom, Quoted, SymbolFrom, SpecialFrom, NumberFrom, ReadItems;
    OnAt(t, p, "\"" + Quoted(s), 0);
    OnSplit(t, p, "\"", Quoted(s));
    StringReads(t, p + 1, s, "");
    assert "" + s == s;
  }

  // A character with which no list ends, nothing is skipped and no dot begins.
  predicate StartsValue(c: char) {
    c != '\0' && !IsSpace(c) && !Closing(c) && c != ';' && c != '.'
  }

  lemma AtomStarts(v: Value)
    requires Readable(v) && Shown(v) && !v.Pair?
    ensures PrintedAtom(v) != [] && StartsValue(PrintedAtom(v)[0])
  {
    hide Quoted;
    match v
    case Int(i) => DigitsAreDigits(if i < 0 then -i else i, 0);
    case Sym(s) => assert PlainChar(s[0]);
    case _ =>
  }

  lemma ValueStarts(v: Value)
    requires Readable(v) && Shown(v)
    ensures Printed(v) != [] && StartsValue(Printed(v)[0])
  {
    hide PrintedAtom, Tail, Readable;
    if !v.Pair? {
      AtomStarts(v);
    }
  }

  // Spaces in front of an item do not matter.
  lemma SameItems(t: string, e: nat, q: nat, root: bool, close: char, items: seq<Value>, tail: Value)
    requires Behind(t, e, q)
    ensures ReadItems(t, q, root, close, items, tail) == ReadItems(t, e, root, close, items, tail)
  {
    hide ReadValue, ReadCdr, SkipLine, NonSymbol, Closing;
    SkipTwice(t, e);
  }

  lemma {:induction false} SkipTwice(t: string, p: nat)
    requires p <= |t|
    ensures SkipSpace(t, SkipSpace(t, p)) == SkipSpace(t, p)
    decreases |t| - p
  {
  }

  // One item of a list.
  lemma ItemRead(t: string, p: nat, root: bool, close: char, items: seq<Value>, tail: Value)
    requires p < |t| && StartsValue(t[p]) && Closing(close)
    ensures ReadValue(t, p).item.Got? ==>
              ReadItems(t, p, root, close, items, tail) ==
              ReadItems(t, ReadValue(t, p).next, root, close, items + [ReadValue(t, p).item.v], Nil)
  {
    hide ReadValue, ReadCdr, SkipLine, NonSymbol;
  }

  lemma {:induction false} ListToMore(items: seq<Value>, a: Value, d: Value)
    ensures ListTo(items + [a], d) == ListTo(items, Pair(a, d))
  {
    if items == [] {
      assert items + [a] == [a];
    } else {
      assert (items + [a])[1..] == items[1..] + [a];
      ListToMore(items[1..], a, d);
    }
  }

  lemma {:induction false} ValueReadsBack(t: string, p: nat, v: Value)
    requires Readable(v) && Shown(v) && On(t, p, Printed(v)) && Stops(t, p + |Printed(v)|)
    ensures ReadValue(t, p).item == Got(Kept(v)) && Behind(t, p + |Printed(v)|, ReadValue(t, p).next)
    decreases v, 1
  {
    hide ReadValue, On, Stops, Behind, PrintedAtom, Tail, ReadItems;
    if !v.Pair? {
      AtomReadsBack(t, p, v);
    } else if IsQuote(v) {
      OnSplit(t, p, "'", Printed(v.cdr.car));
      ValueReadsBack(t, p + 1, v.cdr.car);
      QuoteRead(t, p);
      KeptQuote(v);
    } else {
      assert Printed(v) == "(" + (Tail(v, true) + ")");
      OnSplit(t, p, "(", Tail(v, true) + ")");
      TailReadsBack(t, p + 1, v, true, []);
      ListStarts(t, p);
      assert Behind(t, p + |Printed(v)|, p + |Printed(v)|) by { OnFits(t, p, Printed(v)); BehindSelf(t, p + |Printed(v)|); }
    }
  }

  lemma KeptQuote(v: Value)
    requires IsQuote(v)
    ensures Kept(v) == Pair(Sym("quote"), Pair(Kept(v.cdr.car), Nil))
  {
    assert Kept(v.cdr) == Pair(Kept(v.cdr.car), Nil);
  }

  lemma QuoteRead(t: string, p: nat)
    requires On(t, p, "'")
    ensures p < |t| && ReadValue(t, p) == Wrapped("quote", ReadValue(t, p + 1))
  {
    OnAt(t, p, "'", 0);
    hide SymbolFrom, SpecialFrom, NumberFrom, ReadItems, StringFrom, Wrapped;
  }

  lemma ListStarts(t: string, p: nat)
    requires On(t, p, "(")
    ensures p < |t| && ReadValue(t, p) == ReadItems(t, p + 1, false, ')', [], Nil)
  {
    OnAt(t, p, "(", 0);
    hide SymbolFrom, SpecialFrom, NumberFrom, ReadItems, StringFrom, Wrapped;
  }

  lemma OnFits(t: string, p: nat, s: string)
    requires On(t, p, s)
    ensures p + |s| <= |t|
  {
  }

  lemma BehindSelf(t: string, e: nat)
    requires e <= |t|
    ensures Behind(t, e, e)
  {
  }

  // What printing keeps of the rest of a list.
  function KeptTail(v: Value): Value { if v == Bool(false) then Nil else Kept(v) }

  lemma {:induction false} TailReadsBack(t: string, p: nat, v: Value, first: bool, items: seq<Value>)
    requires Readable(v) && Shown(v) && (items != [] || v.Pair?) && (!first || v.Pair?)
    requires On(t, p, Tail(v, first) + ")")
    ensures ReadItems(t, p, false, ')', items, Nil) == Read(Got(ListTo(items, KeptTail(v))), p + |Tail(v, first)| + 1)
    decreases v, 0
  {
    hide ReadValue, ReadItems, On, Printed, PrintedAtom, Stops, Behind, SkipSpace, StartsValue;
    if !Truthy(v) {
      assert Tail(v, first) + ")" == ")";
      ListEnds(t, p, items, Nil);
    } else if v.Pair? {
      var a, rest := Printed(v.car), Tail(v.cdr, false) + ")";
      var space := if first then "" else " ";
      assert Tail(v, first) + ")" == space + (a + rest);
      OnSplit(t, p, space, a + rest);
      var q := p + |space|;
      OnSplit(t, q, a, rest);
      TailStops(t, q + |a|, v.cdr);
      ValueReadsBack(t, q, v.car);
      ValueStarts(v.car);
      OnAt(t, q, a, 0);
      AfterSpace(t, p, first, q);
      SameItems(t, p, q, false, ')', items, Nil);
      ItemRead(t, q, false, ')', items, Nil);
      var more := items + [Kept(v.car)];
      SameItems(t, q + |a|, ReadValue(t, q).next, false, ')', more, Nil);
      TailReadsBack(t, q + |a|, v.cdr, false, more);
      ListToMore(items, Kept(v.car), KeptTail(v.cdr));
    } else {
      DottedReadsBack(t, p, v, items);
    }
  }

  lemma ListEnds(t: string, p: nat, items: seq<Value>, tail: Value)
    requires On(t, p, ")") && items != []
    ensures ReadItems(t, p, false, ')', items, tail) == Read(Got(ListTo(items, tail)), p + 1)
  {
    hide ReadValue, ReadCdr, SkipLine, NonSymbol;
    OnAt(t, p, ")", 0);
  }

  lemma TailStops(t: string, p: nat, v: Value)
    requires Shown(v) && On(t, p, Tail(v, false) + ")")
    ensures Stops(t, p)
  {
    hide Printed, PrintedAtom;
    OnAt(t, p, Tail(v, false) + ")", 0);
  }

  lemma AfterSpace(t: string, p: nat, first: bool, q: nat)
    requires q < |t| && StartsValue(t[q])
    requires if first then q == p else q == p + 1 && On(t, p, " ")
    ensures Behind(t, p, q)
  {
    if !first {
      OnAt(t, p, " ", 0);
      assert SkipSpace(t, q) == q;
    }
  }

  lemma {:induction false} DottedReadsBack(t: string, p: nat, v: Value, items: seq<Value>)
    requires Readable(v) && Shown(v) && Truthy(v) && !v.Pair? && items != []
    requires On(t, p, Tail(v, false) + ")")
    ensures ReadItems(t, p, false, ')', items, Nil) == Read(Got(ListTo(items, Kept(v))), p + |Tail(v, false)| + 1)
  {
    hide ReadValue, ReadItems, On, PrintedAtom, Stops, Behind, SkipSpace, StartsValue;
    var a := PrintedAtom(v);
    assert Tail(v, false) + ")" == " . " + (a + ")");
    OnSplit(t, p, " . ", a + ")");
    var q := p + 3;
    OnSplit(t, q, a, ")");
    ParenStops(t, q + |a|);
    AtomReadsBack(t, q, v);
    AtomStarts(v);
    OnAt(t, q, a, 0);
    DotRead(t, p, items);
    SameItems(t, q + |a|, ReadValue(t, q).next, false, ')', items, Kept(v));
    ListEnds(t, q + |a|, items, Kept(v));
  }

  lemma ParenStops(t: string, p: nat)
    requires On(t, p, ")")
    ensures Stops(t, p)
  {
    OnAt(t, p, ")", 0);
  }

  lemma DotRead(t: string, p: nat, items: seq<Value>)
    requires On(t, p, " . ") && p + 3 < |t| && StartsValue(t[p + 3]) && items != []
    ensures var r := ReadValue(t, p + 3);
            r.item.Got? ==> ReadItems(t, p, false, ')', items, Nil) == ReadItems(t, r.next, false, ')', items, r.item.v)
  {
    hide ReadValue, SkipLine;
    OnAt(t, p, " . ", 0);
    OnAt(t, p, " . ", 1);
    OnAt(t, p, " . ", 2);
    assert SkipSpace(t, p) == p + 1;
    assert SkipSpace(t, p + 2) == p + 3;
  }

  // ---- whole texts

  ghost predicate AllReadable(vs: seq<Value>) {
    forall i :: 0 <= i < |vs| ==> Readable(vs[i]) && Shown(vs[i])
  }

  // Printed values, a space between any two.
  function Lines(vs: seq<Value>): string
    requires forall i :: 0 <= i < |vs| ==> Shown(vs[i])
  {
    if vs == [] then "" else if |vs| == 1 then Printed(vs[0]) else Printed(vs[0]) + (" " + Lines(vs[1..]))
  }

  function KeptAll(vs: seq<Value>): (r: seq<Value>)
    ensures |r| == |vs| && forall i :: 0 <= i < |vs| ==> r[i] == Kept(vs[i])
  {
    seq(|vs|, i requires 0 <= i < |vs| => Kept(vs[i]))
  }

  // In a list or at the top, the loop reads printed values one after the other.
  lemma {:induction false} ItemsRead(t: string, p: nat, root: bool, close: char, vs: seq<Value>, items: seq<Value>)
    requires AllReadable(vs) && On(t, p, Lines(vs)) && Stops(t, p + |Lines(vs)|) && Closing(close)
    ensures ReadItems(t, p, root, close, items, Nil)
         == ReadItems(t, p + |Lines(vs)|, root, close, items + KeptAll(vs), Nil)
    decreases |vs|
  {
    hide ReadValue, ReadItems, On, Printed, Kept, SkipSpace, Readable, Shown, Stops;
    if vs == [] {
      assert items + KeptAll(vs) == items;
    } else {
      var a := Printed(vs[0]);
      var rest := if |vs| == 1 then "" else " " + Lines(vs[1..]);
      assert Lines(vs) == a + rest;
      OnSplit(t, p, a, rest);
      var e := p + |a|;
      var more := items + [Kept(vs[0])];
      assert items + KeptAll(vs) == more + KeptAll(vs[1..]);
      if |vs| == 1 {
        assert KeptAll(vs[1..]) == [] && more + [] == more;
        OneItem(t, p, root, close, vs[0], items);
      } else {
        OnSplit(t, e, " ", Lines(vs[1..]));
        SpaceStops(t, e);
        OneItem(t, p, root, close, vs[0], items);
        SkipOne(t, e, root, close, more);
        ItemsRead(t, e + 1, root, close, vs[1..], more);
      }
    }
  }

  lemma OneItem(t: string, p: nat, root: bool, close: char, v: Value, items: seq<Value>)
    requires Readable(v) && Shown(v) && On(t, p, Printed(v)) && Stops(t, p + |Printed(v)|) && Closing(close)
    ensures ReadItems(t, p, root, close, items, Nil) == ReadItems(t, p + |Printed(v)|, root, close, items + [Kept(v)], Nil)
  {
    hide ReadValue, ReadItems, On, Printed, Stops, Behind, SkipSpace, StartsValue, Kept, Readable, Shown;
    ValueReadsBack(t, p, v);
    ValueStarts(v);
    OnAt(t, p, Printed(v), 0);
    ItemRead(t, p, root, close, items, Nil);
    SameItems(t, p + |Printed(v)|, ReadValue(t, p).next, root, close, items + [Kept(v)], Nil);
  }

  lemma TextEnds(t: string, items: seq<Value>)
    requires items != []
    ensures ReadItems(t, |t|, true, ')', items, Nil).item == Got(ListTo(items, Nil))
  {
  }

  lemma SpaceStops(t: string, e: nat)
    requires On(t, e, " ")
    ensures Stops(t, e)
  {
    OnAt(t, e, " ", 0);
  }

  lemma SkipOne(t: string, e: nat, root: bool, close: char, items: seq<Value>)
    requires On(t, e, " ")
    ensures ReadItems(t, e, root, close, items, Nil) == ReadItems(t, e + 1, root, close, items, Nil)
  {
    hide ReadValue, ReadCdr, SkipLine, NonSymbol, Closing;
    OnAt(t, e, " ", 0);
  }

  // Reading printed values gives the list of what printing keeps of them.
  lemma ReadPrinted(vs: seq<Value>)
    requires vs != [] && forall i :: 0 <= i < |vs| ==> Readable(vs[i])
    ensures AllReadable(vs) && ReadAll(Lines(vs)) == Got(ListTo(KeptAll(vs), Nil))
  {
    forall i | 0 <= i < |vs| ensures Shown(vs[i]) {
      ReadableIsShown(vs[i]);
    }
    hide ReadAll, Lines, ListTo, Kept;
    ReadLines(vs);
  }

  lemma ReadLines(vs: seq<Value>)
    requires AllReadable(vs) && vs != []
    ensures ReadAll(Lines(vs)) == Got(ListTo(KeptAll(vs), Nil))
  {
    hide ReadItems, Lines, ListTo, Kept, On, Readable, Shown;
    OnWhole(Lines(vs));
    ItemsRead(Lines(vs), 0, true, ')', vs, []);
    assert [] + KeptAll(vs) == KeptAll(vs);
    TextEnds(Lines(vs), KeptAll(vs));
  }

  lemma OnWhole(t: string)
    ensures On(t, 0, t)
  {
    assert t[0..|t|] == t;
  }

  // read of string/write v is the one-element list of v, exactly when no list
  // in v ends in #f and no string in it contains a NUL.
  lemma RoundTripIff(v: Value)
    requires Readable(v)
    ensures Shown(v) && ReadAll(Printed(v)) == Got(Pair(Kept(v), Nil))
    ensures ReadAll(Printed(v)) == Got(Pair(v, Nil)) <==> Lossless(v)
  {
    hide ReadAll, Printed, Readable, Lossless;
    ReadPrinted([v]);
    KeptIff(v);
    assert KeptAll([v]) == [Kept(v)];
    assert ListTo([Kept(v)], Nil) == Pair(Kept(v), Nil);
  }

  // An integer reads back exactly when it has at most 18 digits; a longer one
  // is an error.
  lemma IntegerReadsBackIff(i: int)
    ensures ReadAll(Printed(Int(i))) == Got(Pair(Int(i), Nil)) <==> -INT_LIMIT < i < INT_LIMIT
    ensures !(-INT_LIMIT < i < INT_LIMIT) ==> ReadAll(Printed(Int(i))) == Failed(LiteralTooBig)
  {
    hide ReadAll, Decimal;
    if -INT_LIMIT < i < INT_LIMIT {
      RoundTripIff(Int(i));
    } else {
      var t := Decimal(i);
      assert t[0..|t|] == t;
      BigIntFails(t, 0, i);
      FirstFails(t, i);
    }
  }

  lemma FirstFails(t: string, i: int)
    requires t == Decimal(i) && ReadValue(t, 0).item == Failed(LiteralTooBig)
    ensures ReadAll(t) == Failed(LiteralTooBig)
  {
    hide ReadValue, ReadCdr, SkipLine, Digits;
    DigitsAreDigits(if i < 0 then -i else i, 0);
  }

  // ---- symbols

  lemma {:induction false} SymbolFromPlain(t: string, p: nat, buf: string, keyword: bool)
    requires p <= |t| && |buf| <= SYMBOL_SIZE && (keyword || AllPlain(buf))
    ensures var r := SymbolFrom(t, p, buf, keyword).item; r.Got? && r.v.Sym? ==> AllPlain(r.v.s)
    decreases |t| - p
  {
    var c := At(t, p);
    if |buf| < SYMBOL_SIZE && !(c == ':' && keyword) && !(c == ':' && buf != []) && c != '.' && !EndsWord(c) {
      SymbolFromPlain(t, p + 1, buf + [c], keyword || c == ':');
    }
  }

  lemma {:induction false} ReadSymbolIsPlain(t: string, p: nat)
    requires p <= |t|
    ensures var r := ReadValue(t, p).item; r.Got? && r.v.Sym? ==> AllPlain(r.v.s)
    decreases |t| - p
  {
    hide AllPlain, SymbolFrom, NumberFrom, StringFrom, SpecialFrom;
    var c := At(t, p);
    if c == ';' {
      ReadSymbolIsPlain(t, SkipLine(t, p));
    } else {
      NothingIsPlain();
      SymbolFromPlain(t, p, "", false);
    }
  }

  lemma NothingIsPlain()
    ensures AllPlain("")
  {
  }

  // The first symbol of a text is plain, whatever comments come before it.
  lemma {:induction false} FirstSymbolIsPlain(t: string, p: nat, tail: Value)
    requires p <= |t|
    ensures var r := ReadItems(t, p, true, ')', [], tail).item; r.Got? && r.v.car.Sym? ==> AllPlain(r.v.car.s)
    decreases |t| - p
  {
    hide AllPlain, ReadValue, ReadCdr;
    var q := SkipSpace(t, p);
    if At(t, q) == ';' {
      FirstSymbolIsPlain(t, SkipLine(t, q), tail);
    } else if q < |t| {
      ReadSymbolIsPlain(t, q);
      if ReadValue(t, q).item.Comment? {
        FirstSymbolIsPlain(t, ReadValue(t, q).next, tail);
      }
    }
  }

  // Words that are no symbols although all their characters are plain.
  lemma NotASymbol(t: string)
    requires t != [] && AllPlain(t) && (t[0] == '~' || IsDigit(t[0]) || (t[0] == '-' && IsDigit(At(t, 1))))
    ensures var r := ReadValue(t, 0).item; r.Got? ==> !r.v.Sym?
  {
    hide NumberFrom, SymbolFrom, StringFrom, SpecialFrom, ReadItems;
    assert PlainChar(t[0]);
  }

  lemma WordIsNoComment(t: string)
    requires t != [] && PlainChar(t[0])
    ensures !ReadValue(t, 0).item.Comment?
  {
    hide NumberFrom, SymbolFrom, StringFrom, SpecialFrom, ReadItems;
  }

  lemma FirstItem(t: string)
    requires t != [] && AllPlain(t)
    ensures var r := ReadAll(t); r.Got? ==> ReadValue(t, 0).item.Got? && r.v.car == ReadValue(t, 0).item.v
  {
    hide ReadValue, ReadCdr;
    assert PlainChar(t[0]);
    WordIsNoComment(t);
  }

  // A name reads back as that symbol exactly when it is plain: not empty, free
  // of spaces, brackets, quotes, colons and dots, and no number or unquote.
  lemma SymbolReadsBackIff(s: string)
    requires |s| <= NAME_MAX
    ensures ReadAll(Printed(Sym(s))) == Got(Pair(Sym(s), Nil)) <==> PlainSymbol(s)
  {
    hide ReadAll, ReadValue, ReadItems, AllPlain, Closing;
    if PlainSymbol(s) {
      RoundTripIff(Sym(s));
    } else if s == "" {
      assert ReadAll(s) == Got(Pair(Nil, Nil)) by { ReadsNothing(); }
    } else if AllPlain(s) {
      NotASymbol(s);
      FirstItem(s);
    } else {
      FirstIsPlain(s);
    }
  }

  lemma ReadsNothing()
    ensures ReadAll("") == Got(Pair(Nil, Nil))
  {
  }

  lemma FirstIsPlain(t: string)
    ensures var r := ReadAll(t); r.Got? && r.v.Pair? && r.v.car.Sym? ==> AllPlain(r.v.car.s)
  {
    hide AllPlain, ReadItems;
    FirstSymbolIsPlain(t, 0, Nil);
  }

  // The printer's and the reader's loops one after the other.
  method WriteThenRead(v: Value) returns (item: Item)
    requires Readable(v)
    ensures item == Got(Pair(Kept(v), Nil))
    ensures item == Got(Pair(v, Nil)) <==> Lossless(v)
  {
    hide ReadAll, Printed, Readable, Lossless, Kept;
    ReadableIsShown(v);
    RoundTripIff(v);
    var text := StringWrite(v);
    item := ReadText(text);
  }
}
