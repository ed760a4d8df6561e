// The reader of source text, as a function of the text and a position in it.
// The text is followed by a NUL.
module Parser {
  import opened Values
  import opened Primitives

  // ---- characters

  function At(t: string, p: nat): char { if p < |t| then t[p] else '\0' }

  predicate IsSpace(c: char) { c == ' ' || 9 <= c as int <= 13 }

  predicate NonSymbol(c: char) { c in "()[]{}#'\"`;" }

  predicate Closing(c: char) { c == ')' || c == ']' || c == '}' }

  predicate IsDigit(c: char) { '0' <= c <= '9' }

  // What ends a symbol.
  predicate EndsWord(c: char) { c == '\0' || IsSpace(c) || NonSymbol(c) }

  function SkipSpace(t: string, p: nat): (r: nat)
    requires p <= |t|
    ensures p <= r <= |t| && !IsSpace(At(t, r))
    decreases |t| - p
  {
    if p < |t| && IsSpace(t[p]) then SkipSpace(t, p + 1) else p
  }

  function SkipLine(t: string, p: nat): (r: nat)
    requires p <= |t|
    ensures p <= r <= |t|
    ensures p < |t| && t[p] != '\n' ==> r > p
    decreases |t| - p
  {
    if p < |t| && t[p] != '\n' then SkipLine(t, p + 1) else p
  }

  function SkipWord(t: string, p: nat): (r: nat)
    requires p <= |t|
    ensures p <= r <= |t|
    decreases |t| - p
  {
    if p < |t| && !IsSpace(t[p]) && !NonSymbol(t[p]) && t[p] != ':' then SkipWord(t, p + 1) else p
  }

  // ---- results

  datatype Fault =
    | UnmatchedOpening | UnmatchedClosing | MissingCar | MissingCdr
    | UnknownEscape | UnclosedString | MisplacedColon
    | LiteralTooBig | WrongDigit | WrongSpecial

  // Comments are values of their own type in the C code.  Beyond this model: floats,
  // arrays, buffers, characters, trees, block comments, dotted symbols, and
  // strings that outgrow the scratch buffer.
  datatype Item = Got(v: Value) | Comment | Failed(why: Fault) | Beyond

  datatype Read = Read(item: Item, next: nat)

  // ---- strings

  const BUFFER_SIZE := 4096

  function Unescaped(c: char): Option<char> {
    if c == '0' then Some('\0')
    else if c == 'a' then Some('\U{07}')
    else if c == 'b' then Some('\U{08}')
    else if c == 't' then Some('\t')
    else if c == 'n' then Some('\n')
    else if c == 'v' then Some('\U{0B}')
    else if c == 'f' then Some('\U{0C}')
    else if c == 'r' then Some('\r')
    else if c == 'e' then Some('\U{1B}')
    else if c == '\"' then Some('\"')
    else if c == '\\' then Some('\\')
    else None
  }

  // lParseString behind its opening quote, with buf already read.
  function StringFrom(t: string, p: nat, buf: string): (r: Read)
    requires p <= |t|
    ensures p <= r.next <= |t|
    ensures r.item.Got? ==> r.item.v.Str?
    decreases |t| - p
  {
    if p == |t| then Read(Failed(UnclosedString), p)
    else if |buf| + 1 >= BUFFER_SIZE then Read(Beyond, p)
    else if t[p] == '\\' then
      match Unescaped(At(t, p + 1))
      case None => Read(Failed(UnknownEscape), p + 1)
      case Some(c) => if p + 1 < |t| then StringFrom(t, p + 2, buf + [c]) else Read(Failed(UnknownEscape), p + 1)
    else if t[p] == '\"' then Read(Got(Str(buf)), p + 1)
    else if t[p] == '\0' then Read(Failed(UnclosedString), p)
    else StringFrom(t, p + 1, buf + [t[p]])
  }

  // ---- symbols and keywords

  const SYMBOL_SIZE := 127

  // lFinishSymbol
  function FinishSymbol(t: string, p: nat, buf: string, keyword: bool): (r: Read)
    requires p <= |t|
    ensures p <= r.next <= |t|
  {
    var name := if buf != [] && buf[|buf| - 1] == ':' then buf[..|buf| - 1] else buf;
    var name' := if name != [] && name[0] == ':' then name[1..] else name;
    Read(Got(if keyword then Kw(name') else Sym(name)), SkipSpace(t, p))
  }

  // lParseSymbol, with buf already read.
  function SymbolFrom(t: string, p: nat, buf: string, keyword: bool): (r: Read)
    requires p <= |t| && |buf| <= SYMBOL_SIZE
    ensures !r.item.Comment? && p <= r.next <= |t|
    ensures r.item.Got? && !EndsWord(At(t, p)) && |buf| < SYMBOL_SIZE ==> p < r.next
    decreases |t| - p
  {
    var c := At(t, p);
    if |buf| == SYMBOL_SIZE then FinishSymbol(t, p, buf, keyword)
    else if c == ':' && keyword then Read(Failed(MisplacedColon), p + 1)
    else if c == ':' && buf != [] then
      if EndsWord(At(t, p + 1)) then FinishSymbol(t, p + 1, buf, true) else Read(Failed(MisplacedColon), p + 2)
    else if c == '.' then Read(Beyond, p + 1)
    else if EndsWord(c) then FinishSymbol(t, p, buf, keyword || c == ':')
    else SymbolFrom(t, p + 1, buf + [c], keyword || c == ':')
  }

  // ---- numbers

  function DigitOf(c: char): Option<nat> {
    if '0' <= c <= '9' then Some(c as int - '0' as int)
    else if 'a' <= c <= 'z' then Some(c as int - 'a' as int + 10)
    else if 'A' <= c <= 'Z' then Some(c as int - 'A' as int + 10)
    else None
  }

  // lParseNumberBase, with the digits before p in acc.
  function DigitsFrom(t: string, p: nat, base: nat, max: nat, acc: int, digits: nat): (r: Read)
    requires p <= |t|
    ensures p <= r.next <= |t|
    ensures !r.item.Comment? && (r.item.Got? ==> r.item.v.Int?)
    decreases |t| - p
  {
    if p == |t| || t[p] <= ' ' || NonSymbol(t[p]) || t[p] == '.' then Read(Got(Int(acc)), p)
    else
      match DigitOf(t[p])
      case Some(d) =>
        if d >= base then Read(Failed(WrongDigit), p)
        else if digits + 1 > max then Read(Failed(LiteralTooBig), p)
        else DigitsFrom(t, p + 1, base, max, Wrap64(acc * base + d), digits + 1)
      case None =>
        if t[p] == '_' || t[p] == ',' then DigitsFrom(t, p + 1, base, max, acc, digits)
        else Read(Failed(WrongDigit), p)
  }

  // lParseNumber
  function NumberFrom(t: string, p: nat, base: nat, max: nat): (r: Read)
    requires p <= |t|
    ensures p <= r.next <= |t|
    ensures At(t, p) == '-' && r.item.Got? ==> r.next > p
    ensures !r.item.Comment? && (r.item.Got? ==> r.item.v.Int?)
  {
    var negative := At(t, p) == '-';
    var r := DigitsFrom(t, if negative then p + 1 else p, base, max, 0, 0);
    if !r.item.Got? then r
    else if At(t, r.next) == '.' then Read(Beyond, r.next)
    else if negative then Read(Got(Int(Wrap64(-r.item.v.i))), r.next)
    else r
  }

  // ---- values and lists

  // An empty list is read as a list of #nil.
  function ListRead(items: seq<Value>, tail: Value): Value {
    if items == [] then Pair(Nil, Nil) else ListTo(items, tail)
  }

  // lReadQuote: an exception or a comment becomes part of the list.
  function Wrapped(name: string, r: Read): Read {
    if r.item.Got? then Read(Got(Pair(Sym(name), Pair(r.item.v, Nil))), r.next) else Read(Beyond, r.next)
  }

  function Headed(name: string, r: Read): Read {
    if r.item.Got? then Read(Got(Pair(Sym(name), r.item.v)), r.next) else Read(Beyond, r.next)
  }

  // #; drops the next value, even if it is an exception.
  function Ignored(r: Read): Read { if r.item.Beyond? then r else Read(Comment, r.next) }

  // lParseSpecial, behind the '#'.
  function SpecialFrom(t: string, p: nat): (r: Read)
    requires p < |t|
    ensures p < r.next <= |t|
    ensures r.item.Got? ==> r.item.v.Nil? || r.item.v.Bool? || r.item.v.Int?
  {
    var c := t[p];
    if c == 'n' then Read(Got(Nil), SkipWord(t, p + 1))
    else if c == 't' then Read(Got(Bool(true)), p + 1)
    else if c == 'f' then Read(Got(Bool(false)), p + 1)
    else if c == 'x' then NumberFrom(t, p + 1, 16, 16)
    else if c == 'd' then NumberFrom(t, p + 1, 10, 18)
    else if c == 'o' then NumberFrom(t, p + 1, 8, 21)
    else if c == 'b' then NumberFrom(t, p + 1, 2, 64)
    else if c == '!' then Read(Comment, SkipLine(t, p + 1))
    else if c in "|\\m#@" then Read(Beyond, p + 1)
    else Read(Failed(WrongSpecial), p + 1)
  }

  // lReadValue
  function ReadValue(t: string, p: nat): (r: Read)
    requires p <= |t|
    ensures p <= r.next <= |t|
    ensures (!EndsWord(At(t, p)) || At(t, p) in "([{#'\"`;") && r.item.Got? ==> p < r.next
    ensures r.item.Comment? ==> p < r.next
    decreases |t| - p, 0
  {
    var c := At(t, p);
    if c == '\0' then Read(Got(Nil), p)
    else if c == '(' then ReadItems(t, p + 1, false, ')', [], Nil)
    else if c == '[' then Headed("array/new", ReadItems(t, p + 1, false, ']', [], Nil))
    else if c == '{' then Headed("tree/new", ReadItems(t, p + 1, false, '}', [], Nil))
    else if c == '~' then
      if At(t, p + 1) == '@' then Wrapped("unquote-splicing", ReadValue(t, p + 2))
      else Wrapped("unquote", ReadValue(t, p + 1))
    else if c == '`' then Wrapped("quasiquote", ReadValue(t, p + 1))
    else if c == '\'' then Wrapped("quote", ReadValue(t, p + 1))
    else if c == '\"' then StringFrom(t, p + 1, "")
    else if c == '#' then
      if p + 1 == |t| then Read(Got(Nil), p + 1)
      else if t[p + 1] == ';' then
        if At(t, p + 2) == '(' then Ignored(ReadItems(t, p + 3, false, ')', [], Nil))
        else Ignored(ReadValue(t, p + 2))
      else SpecialFrom(t, p + 1)
    else if c == ';' then ReadValue(t, SkipLine(t, p))
    else if IsDigit(c) || (c == '-' && IsDigit(At(t, p + 1))) then NumberFrom(t, p, 10, 18)
    else SymbolFrom(t, p, "", false)
  }

  // The loop of lReadList, with items and tail already read.
  function ReadItems(t: string, p: nat, root: bool, terminator: char, items: seq<Value>, tail: Value): (r: Read)
    requires p <= |t|
    ensures p <= r.next <= |t|
    ensures r.item.Got? ==> r.item.v.Pair? && (items != [] ==> r.item.v.car == items[0])
    decreases |t| - p, 1
  {
    var q := SkipSpace(t, p);
    var c := At(t, q);
    if c == '\0' then
      if root then Read(Got(ListRead(items, tail)), q) else Read(Failed(UnmatchedOpening), q)
    else if c == ';' then ReadItems(t, SkipLine(t, q), root, terminator, items, tail)
    else if c == terminator then
      if root then Read(Failed(UnmatchedClosing), q) else Read(Got(ListRead(items, tail)), q + 1)
    else if Closing(c) then Read(Failed(UnmatchedClosing), q)
    else if c == '.' && (IsSpace(At(t, q + 1)) || NonSymbol(At(t, q + 1))) then
      if items == [] then Read(Failed(MissingCar), q)
      else
        var r := ReadCdr(t, q + 1);
        if r.item.Got? then ReadItems(t, r.next, root, terminator, items, r.item.v) else r
    else
      var r := ReadValue(t, q);
      match r.item
      case Got(v) => ReadItems(t, r.next, root, terminator, items + [v], Nil)
      case Comment => ReadItems(t, r.next, root, terminator, items, tail)
      case _ => r
  }

  // The value behind a dot; comments before it do not count.
  function ReadCdr(t: string, p: nat): (r: Read)
    requires p <= |t|
    ensures p <= r.next <= |t| && !r.item.Comment?
    decreases |t| - p, 1
  {
    if At(t, p) == '\0' || At(t, p) == ')' then Read(Failed(MissingCdr), p)
    else
      var r := ReadValue(t, SkipSpace(t, p));
      if r.item.Comment? then ReadCdr(t, r.next) else r
  }

  function ReadAll(t: string): Item { ReadItems(t, 0, true, ')', [], Nil).item }
}
