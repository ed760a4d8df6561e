// The reader's parsers, which advance one cursor through the text.
module TextReader {
  import opened Values
  import opened Primitives
  import opened Parser

  class ReadContext {
    const text: string
    var data: nat

    constructor (text: string)
      ensures this.text == text && data == 0
    {
      this.text := text;
      data := 0;
    }

    ghost predicate Valid()
      reads this
    {
      data <= |text|
    }

    // The cursor stands where the specification leaves it, unless the rest is
    // not modelled.
    ghost predicate Follows(item: Item, r: Read)
      reads this
    {
      Valid() && item == r.item && (!item.Beyond? ==> data == r.next)
    }

    method AdvanceToNextCharacter()
      requires Valid()
      modifies this`data
      ensures data == SkipSpace(text, old(data))
    {
      while data < |text| && IsSpace(text[data])
        invariant Valid() && SkipSpace(text, data) == SkipSpace(text, old(data))
      {
        data := data + 1;
      }
    }

    method AdvanceToNextLine()
      requires Valid()
      modifies this`data
      ensures data == SkipLine(text, old(data))
    {
      while data < |text| && text[data] != '\n'
        invariant Valid() && SkipLine(text, data) == SkipLine(text, old(data))
      {
        data := data + 1;
      }
    }

    method AdvanceToNextSpaceOrSpecial()
      requires Valid()
      modifies this`data
      ensures data == SkipWord(text, old(data))
    {
      while data < |text| && !IsSpace(text[data])
        invariant Valid() && SkipWord(text, data) == SkipWord(text, old(data))
      {
        if NonSymbol(text[data]) || text[data] == ':' {
          return;
        }
        data := data + 1;
      }
    }

    // lParseString
    method ParseString() returns (item: Item)
      requires Valid()
      modifies this`data
      ensures Follows(item, StringFrom(text, old(data), ""))
    {
      hide Unescaped;
      var buf := "";
      while data < |text|
        invariant Valid() && StringFrom(text, data, buf) == StringFrom(text, old(data), "")
        decreases |text| - data
      {
        var c := text[data];
        if |buf| + 1 >= BUFFER_SIZE {
          return Beyond;
        }
        if c == '\\' {
          data := data + 1;
          var e := Unescaped(At(text, data));
          if e.None? || data == |text| {
            return Failed(UnknownEscape);
          }
          buf := buf + [e.value];
          data := data + 1;
        } else if c == '\"' {
          data := data + 1;
          return Got(Str(buf));
        } else if c == '\0' {
          return Failed(UnclosedString);
        } else {
          buf := buf + [c];
          data := data + 1;
        }
      }
      return Failed(UnclosedString);
    }

    // lFinishSymbol
    method Finish(buf: string, keyword: bool) returns (item: Item)
      requires Valid()
      modifies this`data
      ensures Follows(item, FinishSymbol(text, old(data), buf, keyword))
    {
      hide SkipSpace;
      AdvanceToNextCharacter();
      var name := buf;
      if name != [] && name[|name| - 1] == ':' {
        name := name[..|name| - 1];
      }
      var start := name;
      if name != [] && name[0] == ':' {
        start := name[1..];
      }
      item := Got(if keyword then Kw(start) else Sym(name));
    }

    // lParseSymbol
    method ParseSymbol() returns (item: Item)
      requires Valid()
      modifies this`data
      ensures Follows(item, SymbolFrom(text, old(data), "", false))
    {
      hide FinishSymbol, EndsWord;
      var buf := "";
      var keyword := false;
      while |buf| < SYMBOL_SIZE
        invariant Valid() && |buf| <= SYMBOL_SIZE
        invariant SymbolFrom(text, data, buf, keyword) == SymbolFrom(text, old(data), "", false)
        decreases SYMBOL_SIZE - |buf|
      {
        var c := At(text, data);
        if c == ':' {
          if keyword {
            data := data + 1;
            return Failed(MisplacedColon);
          }
          if buf != [] {
            data := data + 1;
            if EndsWord(At(text, data)) {
              item := Finish(buf, true);
              return;
            }
            EndIsWord(text, data);
            data := data + 1;
            return Failed(MisplacedColon);
          }
        }
        if c == '.' {
          return Beyond;
        }
        if EndsWord(c) {
          item := Finish(buf, keyword || c == ':');
          return;
        }
        EndIsWord(text, data);
        keyword := keyword || c == ':';
        buf := buf + [c];
        data := data + 1;
      }
      item := Finish(buf, keyword);
    }

    // lParseNumberBase
    method ParseNumberBase(base: nat, max: nat) returns (item: Item)
      requires Valid()
      modifies this`data
      ensures Follows(item, DigitsFrom(text, old(data), base, max, 0, 0))
      ensures item.Got? ==> item.v.Int?
    {
      hide NonSymbol, Wrap64;
      var ret := 0;
      var digits := 0;
      while data < |text|
        invariant Valid() && digits >= 0
        invariant DigitsFrom(text, data, base, max, ret, digits) == DigitsFrom(text, old(data), base, max, 0, 0)
        decreases |text| - data
      {
        var c := text[data];
        if c <= ' ' || NonSymbol(c) || c == '.' {
          break;
        }
        var d := DigitOf(c);
        if d.Some? && d.value < base {
          if digits + 1 > max {
            return Failed(LiteralTooBig);
          }
          ret := Wrap64(ret * base + d.value);
          digits := digits + 1;
        } else if !(c == '_' || c == ',') {
          return Failed(WrongDigit);
        }
        data := data + 1;
      }
      return Got(Int(ret));
    }

    // lParseNumber
    method ParseNumber(base: nat, max: nat) returns (item: Item)
      requires Valid()
      modifies this`data
      ensures Follows(item, NumberFrom(text, old(data), base, max))
    {
      hide DigitsFrom, Wrap64;
      var negative := At(text, data) == '-';
      if negative {
        data := data + 1;
      }
      item := ParseNumberBase(base, max);
      if item.Got? {
        if At(text, data) == '.' {
          return Beyond;
        }
        if negative {
          item := Got(Int(Wrap64(-item.v.i)));
        }
      }
    }

    // lParseSpecial
    method ParseSpecial() returns (item: Item)
      requires data < |text|
      modifies this`data
      ensures Follows(item, SpecialFrom(text, old(data)))
    {
      hide NumberFrom, SkipWord, SkipLine;
      var c := text[data];
      data := data + 1;
      match c {
        case 'n' =>
          AdvanceToNextSpaceOrSpecial();
          item := Got(Nil);
        case 't' => item := Got(Bool(true));
        case 'f' => item := Got(Bool(false));
        case 'x' => item := ParseNumber(16, 16);
        case 'd' => item := ParseNumber(10, 18);
        case 'o' => item := ParseNumber(8, 21);
        case 'b' => item := ParseNumber(2, 64);
        case '!' =>
          AdvanceToNextLine();
          item := Comment;
        case _ => item := if c in "|\\m#@" then Beyond else Failed(WrongSpecial);
      }
    }

    // lReadQuote
    method ReadQuote(name: string) returns (item: Item)
      requires Valid()
      modifies this`data
      ensures Follows(item, Wrapped(name, ReadValue(text, old(data))))
      decreases |text| - data, 2
    {
      item := Read();
      item := if item.Got? then Got(Pair(Sym(name), Pair(item.v, Nil))) else Beyond;
    }

    method ReadHeaded(name: string, terminator: char) returns (item: Item)
      requires Valid()
      modifies this`data
      ensures Follows(item, Headed(name, ReadItems(text, old(data), false, terminator, [], Nil)))
      decreases |text| - data, 2
    {
      item := ReadList(false, terminator);
      item := if item.Got? then Got(Pair(Sym(name), item.v)) else Beyond;
    }

    // What lReadValue does behind a '#'.
    method ReadHash() returns (item: Item)
      requires Valid()
      modifies this`data
      ensures data <= |text|
      ensures Follows(item, if old(data) == |text| then Parser.Read(Got(Nil), old(data))
                            else if text[old(data)] != ';' then SpecialFrom(text, old(data))
                            else if At(text, old(data) + 1) == '(' then Ignored(ReadItems(text, old(data) + 2, false, ')', [], Nil))
                            else Ignored(ReadValue(text, old(data) + 1)))
      decreases |text| - data, 2
    {
      if data == |text| {
        return Got(Nil);
      }
      if text[data] == ';' {
        data := data + 1;
        if At(text, data) == '(' {
          data := data + 1;
          item := ReadList(false, ')');
        } else {
          item := Read();
        }
        return if item.Beyond? then Beyond else Comment;
      }
      item := ParseSpecial();
    }

    // lReadValue
    method Read() returns (item: Item)
      requires Valid()
      modifies this`data
      ensures Follows(item, ReadValue(text, old(data)))
      decreases |text| - data, 0
    {
      hide SymbolFrom, NumberFrom, StringFrom, SpecialFrom, ReadItems, Wrapped, Headed, Ignored, SkipLine;
      var c := At(text, data);
      if c == '\0' {
        return Got(Nil);
      }
      match c {
        case '(' =>
          data := data + 1;
          item := ReadList(false, ')');
        case '[' =>
          data := data + 1;
          item := ReadHeaded("array/new", ']');
        case '{' =>
          data := data + 1;
          item := ReadHeaded("tree/new", '}');
        case '~' =>
          data := data + 1;
          if At(text, data) == '@' {
            data := data + 1;
            item := ReadQuote("unquote-splicing");
          } else {
            item := ReadQuote("unquote");
          }
        case '`' =>
          data := data + 1;
          item := ReadQuote("quasiquote");
        case '\'' =>
          data := data + 1;
          item := ReadQuote("quote");
        case '\"' =>
          data := data + 1;
          item := ParseString();
        case '#' =>
          data := data + 1;
          item := ReadHash();
        case ';' =>
          AdvanceToNextLine();
          item := Read();
        case _ =>
          if IsDigit(c) || (c == '-' && IsDigit(At(text, data + 1))) {
            item := ParseNumber(10, 18);
          } else {
            item := ParseSymbol();
          }
      }
    }

    // lReadList
    method ReadList(root: bool, terminator: char) returns (item: Item)
      requires Valid()
      modifies this`data
      ensures Follows(item, ReadItems(text, old(data), root, terminator, [], Nil))
      decreases |text| - data, 1
    {
      hide ReadValue, SkipSpace, SkipLine, ReadCdr, NonSymbol, ListRead, Closing;
      var items: seq<Value> := [];
      var tail := Nil;
      while true
        invariant Valid() && data >= old(data)
        invariant ReadItems(text, data, root, terminator, items, tail) == ReadItems(text, old(data), root, terminator, [], Nil)
        decreases |text| - data
      {
        AdvanceToNextCharacter();
        var c := At(text, data);
        if c == '\0' {
          return if root then Got(ListRead(items, tail)) else Failed(UnmatchedOpening);
        } else if c == ';' {
          AdvanceToNextLine();
        } else if c == terminator {
          if root {
            return Failed(UnmatchedClosing);
          }
          data := data + 1;
          return Got(ListRead(items, tail));
        } else if Closing(c) {
          return Failed(UnmatchedClosing);
        } else if c == '.' && (IsSpace(At(text, data + 1)) || NonSymbol(At(text, data + 1))) {
          if items == [] {
            return Failed(MissingCar);
          }
          data := data + 1;
          item := ReadDotted();
          if !item.Got? {
            return;
          }
          tail := item.v;
        } else {
          ItemStarts(c);
          item := Read();
          match item {
            case Comment =>
            case Got(v) => items, tail := items + [v], Nil;
            case _ => return;
          }
        }
      }
    }

    // The inner loop of lReadList: the cdr behind a dot.
    method ReadDotted() returns (item: Item)
      requires Valid()
      modifies this`data
      ensures Follows(item, ReadCdr(text, old(data)))
      decreases |text| - data, 1
    {
      hide ReadValue, SkipSpace;
      while true
        invariant Valid() && data >= old(data)
        invariant ReadCdr(text, data) == ReadCdr(text, old(data))
        decreases |text| - data
      {
        if At(text, data) == '\0' || At(text, data) == ')' {
          return Failed(MissingCdr);
        }
        AdvanceToNextCharacter();
        item := Read();
        if !item.Comment? {
          return;
        }
      }
    }
  }

  lemma EndIsWord(t: string, p: nat)
    ensures !EndsWord(At(t, p)) ==> p < |t|
  {
  }

  // Every character with which the loop calls lReadValue is consumed.
  lemma ItemStarts(c: char)
    ensures c == '\0' || IsSpace(c) || Closing(c) || !EndsWord(c) || c in "([{#'\"`;"
  {
  }

  // lRead
  method ReadText(text: string) returns (item: Item)
    ensures item == ReadAll(text)
  {
    var context := new ReadContext(text);
    item := context.ReadList(true, ')');
  }
}
