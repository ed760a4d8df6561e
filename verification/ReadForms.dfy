// What the reader makes of the forms that the printer never writes: comments,
// abbreviations, brackets, numerals in other bases, escapes, and lists that do
// not end.
module ReadForms {
  import opened Values
  import opened Primitives
  import opened Printer
  import opened Parser
  import opened ReadBack

  // ---- one item

  lemma SameStart(t: string, p: nat, q: nat, root: bool, close: char, items: seq<Value>, tail: Value)
    requires p <= |t| && q <= |t| && SkipSpace(t, p) == SkipSpace(t, q)
    ensures ReadItems(t, p, root, close, items, tail) == ReadItems(t, q, root, close, items, tail)
  {
    hide ReadValue, ReadCdr, SkipLine, NonSymbol, Closing;
  }

  lemma ItemSkipped(t: string, p: nat, root: bool, close: char, items: seq<Value>, tail: Value)
    requires p < |t| && StartsValue(t[p]) && Closing(close) && ReadValue(t, p).item.Comment?
    ensures ReadItems(t, p, root, close, items, tail) == ReadItems(t, ReadValue(t, p).next, root, close, items, tail)
  {
    hide ReadValue, ReadCdr, SkipLine, NonSymbol;
  }

  lemma OnlyItem(t: string, v: Value)
    requires t != [] && StartsValue(t[0]) && ReadValue(t, 0).item == Got(v) && Behind(t, |t|, ReadValue(t, 0).next)
    ensures ReadAll(t) == Got(Pair(v, Nil))
  {
    hide ReadValue, ReadItems, Behind, StartsValue;
    ItemRead(t, 0, true, ')', [], Nil);
    SameItems(t, |t|, ReadValue(t, 0).next, true, ')', [] + [v], Nil);
    assert [] + [v] == [v];
    TextEnds(t, [v]);
    assert [v][1..] == [];
  }

  lemma ListCloses(t: string, p: nat, close: char, items: seq<Value>, tail: Value)
    requires p < |t| && t[p] == close && Closing(close) && items != []
    ensures ReadItems(t, p, false, close, items, tail) == Read(Got(ListTo(items, tail)), p + 1)
  {
    hide ReadValue, ReadCdr, SkipLine, NonSymbol;
  }

  // ---- comments

  // A text that the item loop passes over, wherever it stands.
  ghost predicate PassedOver(mid: string) {
    mid != [] && IsSpace(mid[0]) && forall t: string, p: nat :: On(t, p, mid) ==> Passes(t, p, p + |mid|)
  }

  ghost predicate Passes(t: string, p: nat, q: nat) {
    p <= |t| && q <= |t| &&
    forall root: bool, close: char, items: seq<Value> :: Closing(close) ==>
      ReadItems(t, p, root, close, items, Nil) == ReadItems(t, q, root, close, items, Nil)
  }

  lemma {:induction false} LineEnds(t: string, p: nat, c: string)
    requires On(t, p, c) && '\n' !in c && At(t, p + |c|) == '\n'
    ensures p + |c| < |t| && SkipLine(t, p) == p + |c|
    decreases |c|
  {
    if c != [] {
      OnAt(t, p, c, 0);
      assert c == c[..1] + c[1..];
      OnSplit(t, p, c[..1], c[1..]);
      LineEnds(t, p + 1, c[1..]);
    }
  }

  lemma LineComment(t: string, p: nat, c: string)
    requires On(t, p, " ;" + c + "\n") && '\n' !in c
    ensures Passes(t, p, p + |c| + 3)
  {
    hide ReadValue, ReadCdr, On, NonSymbol;
    var q := p + |c| + 2;
    assert " ;" + c + "\n" == " " + (";" + c + "\n");
    OnSplit(t, p, " ", ";" + c + "\n");
    OnSplit(t, p + 1, ";" + c, "\n");
    OnAt(t, p, " ", 0);
    OnAt(t, p + 1, ";" + c, 0);
    OnAt(t, q, "\n", 0);
    LineEnds(t, p + 1, ";" + c);
    assert SkipSpace(t, p) == p + 1;
    assert SkipSpace(t, q) == SkipSpace(t, q + 1);
    forall root: bool, close: char, items: seq<Value> | Closing(close)
      ensures ReadItems(t, p, root, close, items, Nil) == ReadItems(t, q + 1, root, close, items, Nil)
    {
      assert ReadItems(t, p, root, close, items, Nil) == ReadItems(t, q, root, close, items, Nil);
      SameStart(t, q, q + 1, root, close, items, Nil);
    }
  }

  lemma ScriptComment(t: string, p: nat, c: string)
    requires On(t, p, " #!" + c + "\n") && '\n' !in c
    ensures Passes(t, p, p + |c| + 4)
  {
    hide ReadItems, On, NonSymbol, SymbolFrom, NumberFrom, StringFrom;
    var q := p + |c| + 3;
    assert " #!" + c + "\n" == " #!" + (c + "\n");
    OnSplit(t, p, " #!", c + "\n");
    OnSplit(t, p + 3, c, "\n");
    OnAt(t, p, " #!", 0);
    OnAt(t, p, " #!", 1);
    OnAt(t, p, " #!", 2);
    OnAt(t, q, "\n", 0);
    LineEnds(t, p + 3, c);
    assert ReadValue(t, p + 1) == Read(Comment, q);
    assert SkipSpace(t, p) == p + 1 == SkipSpace(t, p + 1);
    assert SkipSpace(t, q) == SkipSpace(t, q + 1);
    forall root: bool, close: char, items: seq<Value> | Closing(close)
      ensures ReadItems(t, p, root, close, items, Nil) == ReadItems(t, q + 1, root, close, items, Nil)
    {
      SameStart(t, p, p + 1, root, close, items, Nil);
      ItemSkipped(t, p + 1, root, close, items, Nil);
      SameStart(t, q, q + 1, root, close, items, Nil);
    }
  }

  lemma IgnoredValue(t: string, p: nat, x: Value)
    requires Readable(x) && Shown(x) && On(t, p, " #;" + Printed(x) + " ")
    ensures Passes(t, p, p + |Printed(x)| + 4)
  {
    hide ReadItems, ReadValue, On, Printed, Readable, Shown, SkipSpace, Behind, Kept, Closing;
    var e := p + 3 + |Printed(x)|;
    assert " #;" + Printed(x) + " " == " #;" + (Printed(x) + " ");
    OnSplit(t, p, " #;", Printed(x) + " ");
    OnSplit(t, p + 3, Printed(x), " ");
    OnAt(t, p, " #;", 0);
    OnAt(t, p, " #;", 1);
    OnAt(t, p, " #;", 2);
    SpaceStops(t, e);
    OnFits(t, e, " ");
    ValueReadsBack(t, p + 3, x);
    IgnoresNext(t, p + 1);
    HashStarts();
    assert " #;" == " " + "#;";
    OnSplit(t, p, " ", "#;");
    var next := ReadValue(t, p + 1).next;
    forall root: bool, close: char, items: seq<Value> | Closing(close)
      ensures ReadItems(t, p, root, close, items, Nil) == ReadItems(t, e + 1, root, close, items, Nil)
    {
      SkipOne(t, p, root, close, items);
      ItemSkipped(t, p + 1, root, close, items, Nil);
      SameItems(t, e, next, root, close, items, Nil);
      SkipOne(t, e, root, close, items);
    }
  }

  lemma HashStarts()
    ensures StartsValue('#')
  {
  }

  lemma IgnoresNext(t: string, p: nat)
    requires p + 1 < |t| && t[p] == '#' && t[p + 1] == ';'
    ensures ReadValue(t, p + 2).item.Got? ==> ReadValue(t, p) == Read(Comment, ReadValue(t, p + 2).next)
  {
    hide ReadItems, SymbolFrom, NumberFrom, StringFrom, SpecialFrom, SkipLine;
    if At(t, p + 2) == '(' {
      assert ReadValue(t, p + 2) == ReadItems(t, p + 3, false, ')', [], Nil);
    }
  }

  // Items before and behind what is passed over, at the top and in a list.
  lemma Around(vs: seq<Value>, mid: string, ws: seq<Value>)
    requires AllReadable(vs) && AllReadable(ws) && vs + ws != [] && PassedOver(mid)
    ensures ReadAll(Lines(vs) + mid + Lines(ws)) == Got(ListTo(KeptAll(vs + ws), Nil))
    ensures ReadAll("(" + Lines(vs) + mid + Lines(ws) + ")") == Got(Pair(ListTo(KeptAll(vs + ws), Nil), Nil))
  {
    hide ReadItems, ReadValue, On, Lines, Kept, PassedOver, Readable, Shown;
    var t := Lines(vs) + mid + Lines(ws);
    assert On(t, 0, t) by { OnWhole(t); }
    Runs(t, 0, true, ')', vs, mid, ws);
    TextEnds(t, KeptAll(vs + ws));
    var t' := "(" + Lines(vs) + mid + Lines(ws) + ")";
    assert t' == "(" + (t + ")");
    OnWhole(t');
    OnSplit(t', 0, "(", t + ")");
    OnSplit(t', 1, t, ")");
    OnAt(t', 0, "(", 0);
    OnAt(t', 1 + |t|, ")", 0);
    ListStarts(t', 0);
    Runs(t', 1, false, ')', vs, mid, ws);
    ListCloses(t', 1 + |t|, ')', KeptAll(vs + ws), Nil);
    OnlyItem(t', ListTo(KeptAll(vs + ws), Nil));
  }

  lemma Runs(t: string, p: nat, root: bool, close: char, vs: seq<Value>, mid: string, ws: seq<Value>)
    requires AllReadable(vs) && AllReadable(ws) && PassedOver(mid) && Closing(close)
    requires On(t, p, Lines(vs) + mid + Lines(ws)) && Stops(t, p + |Lines(vs) + mid + Lines(ws)|)
    ensures ReadItems(t, p, root, close, [], Nil)
         == ReadItems(t, p + |Lines(vs) + mid + Lines(ws)|, root, close, KeptAll(vs + ws), Nil)
  {
    hide ReadItems, On, Lines, Kept, Readable, Shown;
    OnSplit(t, p, Lines(vs) + mid, Lines(ws));
    OnSplit(t, p, Lines(vs), mid);
    var e := p + |Lines(vs)|;
    OnAt(t, e, mid, 0);
    ItemsRead(t, p, root, close, vs, []);
    assert [] + KeptAll(vs) == KeptAll(vs);
    assert Passes(t, e, e + |mid|);
    ItemsRead(t, e + |mid|, root, close, ws, KeptAll(vs));
    assert KeptAll(vs) + KeptAll(ws) == KeptAll(vs + ws);
  }

  const SPACES := [9, 10, 11, 12, 13, 32]

  // Any white space separates items, and more of it changes nothing.
  lemma SpacesSeparate(vs: seq<Value>, i: nat, j: nat, ws: seq<Value>)
    requires AllReadable(vs) && AllReadable(ws) && vs + ws != [] && i < |SPACES| && j < |SPACES|
    ensures ReadAll(Lines(vs) + [SPACES[i] as char] + Lines(ws)) == Got(ListTo(KeptAll(vs + ws), Nil))
    ensures ReadAll(Lines(vs) + [SPACES[i] as char, SPACES[j] as char] + Lines(ws)) == Got(ListTo(KeptAll(vs + ws), Nil))
  {
    hide ReadAll, Lines, Kept, Readable, Shown, ListTo;
    var a, b := SPACES[i] as char, SPACES[j] as char;
    forall t: string, p: nat | On(t, p, [a]) ensures Passes(t, p, p + |[a]|) {
      SpacePasses(t, p, a);
    }
    forall t: string, p: nat | On(t, p, [a, b]) ensures Passes(t, p, p + |[a, b]|) {
      assert [a, b] == [a] + [b];
      OnSplit(t, p, [a], [b]);
      SpacePasses(t, p, a);
      SpacePasses(t, p + 1, b);
      PassesOn(t, p, p + 1, p + 2);
    }
    Around(vs, [a], ws);
    Around(vs, [a, b], ws);
  }

  lemma SpacePasses(t: string, p: nat, c: char)
    requires On(t, p, [c]) && IsSpace(c)
    ensures Passes(t, p, p + 1)
  {
    OnAt(t, p, [c], 0);
    forall root: bool, close: char, items: seq<Value> | Closing(close)
      ensures ReadItems(t, p, root, close, items, Nil) == ReadItems(t, p + 1, root, close, items, Nil)
    {
      SameStart(t, p, p + 1, root, close, items, Nil);
    }
  }

  lemma PassesOn(t: string, p: nat, q: nat, r: nat)
    requires Passes(t, p, q) && Passes(t, q, r)
    ensures Passes(t, p, r)
  {
    hide ReadItems;
  }

  // A comment to the end of a line, a script line, and an ignored value count
  // for nothing: the items around them are all that is read.
  lemma CommentsCountForNothing(vs: seq<Value>, c: string, x: Value, ws: seq<Value>)
    requires AllReadable(vs) && AllReadable(ws) && vs + ws != [] && '\n' !in c && Readable(x) && Shown(x)
    ensures ReadAll(Lines(vs) + " ;" + c + "\n" + Lines(ws)) == Got(ListTo(KeptAll(vs + ws), Nil))
    ensures ReadAll(Lines(vs) + " #!" + c + "\n" + Lines(ws)) == Got(ListTo(KeptAll(vs + ws), Nil))
    ensures ReadAll(Lines(vs) + " #;" + Printed(x) + " " + Lines(ws)) == Got(ListTo(KeptAll(vs + ws), Nil))
    ensures ReadAll("(" + Lines(vs) + " ;" + c + "\n" + Lines(ws) + ")") == Got(Pair(ListTo(KeptAll(vs + ws), Nil), Nil))
    ensures ReadAll("(" + Lines(vs) + " #!" + c + "\n" + Lines(ws) + ")") == Got(Pair(ListTo(KeptAll(vs + ws), Nil), Nil))
    ensures ReadAll("(" + Lines(vs) + " #;" + Printed(x) + " " + Lines(ws) + ")") ==
            Got(Pair(ListTo(KeptAll(vs + ws), Nil), Nil))
  {
    hide ReadAll, Lines, Kept, Printed, Readable, Shown, ListTo;
    CommentsPass(c, x);
    Around(vs, " ;" + c + "\n", ws);
    Around(vs, " #!" + c + "\n", ws);
    Around(vs, " #;" + Printed(x) + " ", ws);
    var a, b := Lines(vs), Lines(ws);
    assert a + " ;" + c + "\n" + b == a + (" ;" + c + "\n") + b;
    assert a + " #!" + c + "\n" + b == a + (" #!" + c + "\n") + b;
    assert a + " #;" + Printed(x) + " " + b == a + (" #;" + Printed(x) + " ") + b;
    assert "(" + a + " ;" + c + "\n" + b + ")" == "(" + a + (" ;" + c + "\n") + b + ")";
    assert "(" + a + " #!" + c + "\n" + b + ")" == "(" + a + (" #!" + c + "\n") + b + ")";
    assert "(" + a + " #;" + Printed(x) + " " + b + ")" == "(" + a + (" #;" + Printed(x) + " ") + b + ")";
  }

  lemma CommentsPass(c: string, x: Value)
    requires '\n' !in c && Readable(x) && Shown(x)
    ensures PassedOver(" ;" + c + "\n") && PassedOver(" #!" + c + "\n") && PassedOver(" #;" + Printed(x) + " ")
  {
    hide On, Passes, Printed, Readable, Shown;
    forall t: string, p: nat | On(t, p, " ;" + c + "\n") ensures Passes(t, p, p + |" ;" + c + "\n"|) {
      LineComment(t, p, c);
    }
    forall t: string, p: nat | On(t, p, " #!" + c + "\n") ensures Passes(t, p, p + |" #!" + c + "\n"|) {
      ScriptComment(t, p, c);
    }
    forall t: string, p: nat | On(t, p, " #;" + Printed(x) + " ") ensures Passes(t, p, p + |" #;" + Printed(x) + " "|) {
      IgnoredValue(t, p, x);
    }
  }

  // ---- abbreviations

  lemma AbbreviationStarts(t: string)
    requires t != []
    ensures t[0] == '\'' ==> ReadValue(t, 0) == Wrapped("quote", ReadValue(t, 1))
    ensures t[0] == '`' ==> ReadValue(t, 0) == Wrapped("quasiquote", ReadValue(t, 1))
    ensures t[0] == '~' && At(t, 1) != '@' ==> ReadValue(t, 0) == Wrapped("unquote", ReadValue(t, 1))
    ensures t[0] == '~' && At(t, 1) == '@' ==> ReadValue(t, 0) == Wrapped("unquote-splicing", ReadValue(t, 2))
    ensures t[0] in "'`~" ==> StartsValue(t[0])
  {
    hide SymbolFrom, SpecialFrom, NumberFrom, ReadItems, StringFrom, Wrapped, SkipLine;
  }

  function ListOfTwo(name: string, v: Value): Value { Pair(Sym(name), Pair(v, Nil)) }

  // 'v is (quote v), `v (quasiquote v), ~@v (unquote-splicing v), and ~v
  // (unquote v) unless the text of v starts with an @.
  lemma AbbreviationsRead(v: Value)
    requires Readable(v)
    ensures Shown(v) && Printed(v) != []
    ensures ReadAll("'" + Printed(v)) == Got(Pair(ListOfTwo("quote", Kept(v)), Nil))
    ensures ReadAll("`" + Printed(v)) == Got(Pair(ListOfTwo("quasiquote", Kept(v)), Nil))
    ensures ReadAll("~@" + Printed(v)) == Got(Pair(ListOfTwo("unquote-splicing", Kept(v)), Nil))
    ensures Printed(v)[0] != '@' ==> ReadAll("~" + Printed(v)) == Got(Pair(ListOfTwo("unquote", Kept(v)), Nil))
  {
    hide ReadAll, ReadValue, Printed, Kept, Readable, StartsValue;
    ReadableIsShown(v);
    ValueStarts(v);
    AbbreviationRead("'", "quote", v);
    AbbreviationRead("`", "quasiquote", v);
    AbbreviationRead("~@", "unquote-splicing", v);
    if Printed(v)[0] != '@' {
      AbbreviationRead("~", "unquote", v);
    }
  }

  lemma AbbreviationRead(mark: string, name: string, v: Value)
    requires Readable(v) && Shown(v) && mark in ["'", "`", "~@", "~"]
    requires mark == "~" ==> Printed(v) != [] && Printed(v)[0] != '@'
    requires (mark, name) in [("'", "quote"), ("`", "quasiquote"), ("~@", "unquote-splicing"), ("~", "unquote")]
    ensures ReadAll(mark + Printed(v)) == Got(Pair(ListOfTwo(name, Kept(v)), Nil))
  {
    hide ReadAll, ReadValue, Printed, Kept, Readable, StartsValue, Behind, On;
    var t := mark + Printed(v);
    OnWhole(t);
    OnSplit(t, 0, mark, Printed(v));
    assert Stops(t, |t|);
    ValueReadsBack(t, |mark|, v);
    AbbreviationStarts(t);
    OnlyItem(t, ListOfTwo(name, Kept(v)));
  }

  // ---- brackets

  lemma BracketStarts(t: string)
    requires t != [] && t[0] in "([{"
    ensures var r := (close: char) => ReadItems(t, 1, false, close, [], Nil);
            ReadValue(t, 0) ==
            if t[0] == '(' then r(')') else if t[0] == '[' then Headed("array/new", r(']')) else Headed("tree/new", r('}'))
    ensures StartsValue(t[0])
  {
    hide SymbolFrom, SpecialFrom, NumberFrom, ReadItems, StringFrom, SkipLine, Headed;
  }

  // Items in parentheses are their list, in brackets and braces the list of a
  // call that makes an array or a tree of them.
  lemma BracketsRead(vs: seq<Value>)
    requires AllReadable(vs) && vs != []
    ensures ReadAll("(" + Lines(vs) + ")") == Got(Pair(ListTo(KeptAll(vs), Nil), Nil))
    ensures ReadAll("[" + Lines(vs) + "]") == Got(Pair(Pair(Sym("array/new"), ListTo(KeptAll(vs), Nil)), Nil))
    ensures ReadAll("{" + Lines(vs) + "}") == Got(Pair(Pair(Sym("tree/new"), ListTo(KeptAll(vs), Nil)), Nil))
  {
    hide ReadAll, ReadValue, ReadItems, Lines, Kept, Readable, Shown, On, ListTo;
    var list := ListTo(KeptAll(vs), Nil);
    forall o, c | (o, c) in [('(', ')'), ('[', ']'), ('{', '}')]
      ensures ReadItems([o] + Lines(vs) + [c], 1, false, c, [], Nil) == Read(Got(list), |Lines(vs)| + 2)
    {
      BracketRead(o, vs, c);
    }
    assert [] + ['('] == "(" && [')'] == ")";
    forall o, c | (o, c) in [('(', ')'), ('[', ']'), ('{', '}')]
      ensures ReadAll([o] + Lines(vs) + [c]) ==
              Got(Pair(if o == '(' then list else Pair(Sym(if o == '[' then "array/new" else "tree/new"), list), Nil))
    {
      var t := [o] + Lines(vs) + [c];
      BracketStarts(t);
      OnlyItem(t, if o == '(' then list else Pair(Sym(if o == '[' then "array/new" else "tree/new"), list));
    }
    assert ('(', ')') in [('(', ')'), ('[', ']'), ('{', '}')];
    assert ('[', ']') in [('(', ')'), ('[', ']'), ('{', '}')];
    assert ('{', '}') in [('(', ')'), ('[', ']'), ('{', '}')];
  }

  lemma BracketRead(open: char, vs: seq<Value>, close: char)
    requires AllReadable(vs) && vs != [] && Closing(close)
    ensures ReadItems([open] + Lines(vs) + [close], 1, false, close, [], Nil) ==
            Read(Got(ListTo(KeptAll(vs), Nil)), |Lines(vs)| + 2)
  {
    hide ReadItems, Lines, Kept, Readable, Shown, On, ListTo;
    var t := [open] + Lines(vs) + [close];
    assert t == [open] + (Lines(vs) + [close]);
    OnWhole(t);
    OnSplit(t, 0, [open], Lines(vs) + [close]);
    OnSplit(t, 1, Lines(vs), [close]);
    ItemsRead(t, 1, false, close, vs, []);
    assert [] + KeptAll(vs) == KeptAll(vs);
    ListCloses(t, 1 + |Lines(vs)|, close, KeptAll(vs), Nil);
  }

  // A value behind a dot ends the list.
  lemma DottedListsRead(vs: seq<Value>, v: Value)
    requires AllReadable(vs) && vs != [] && Readable(v) && Shown(v)
    ensures ReadAll("(" + Lines(vs) + " . " + Printed(v) + ")") == Got(Pair(ListTo(KeptAll(vs), Kept(v)), Nil))
  {
    hide ReadAll, ReadValue, ReadItems, Lines, Kept, Readable, Shown, On, ListTo, Printed, Behind, StartsValue, SkipSpace;
    var a := Printed(v);
    var t := "(" + Lines(vs) + " . " + a + ")";
    assert t == "(" + (Lines(vs) + (" . " + (a + ")")));
    OnWhole(t);
    OnSplit(t, 0, "(", Lines(vs) + (" . " + (a + ")")));
    OnSplit(t, 1, Lines(vs), " . " + (a + ")"));
    var e := 1 + |Lines(vs)|;
    OnSplit(t, e, " . ", a + ")");
    OnSplit(t, e + 3, a, ")");
    OnAt(t, e, " . ", 0);
    ItemsRead(t, 1, false, ')', vs, []);
    assert [] + KeptAll(vs) == KeptAll(vs);
    ValueStarts(v);
    OnAt(t, e + 3, a, 0);
    ParenStops(t, e + 3 + |a|);
    ValueReadsBack(t, e + 3, v);
    DotRead(t, e, KeptAll(vs));
    SameItems(t, e + 3 + |a|, ReadValue(t, e + 3).next, false, ')', KeptAll(vs), Kept(v));
    ListEnds(t, e + 3 + |a|, KeptAll(vs), Kept(v));
    BracketStarts(t);
    BehindSelf(t, |t|);
    OnlyItem(t, ListTo(KeptAll(vs), Kept(v)));
  }

  // ---- lists that do not end

  lemma FailureEnds(t: string, p: nat, root: bool, close: char, items: seq<Value>, tail: Value)
    requires p <= |t| && Closing(close)
    ensures p == |t| && !root ==> ReadItems(t, p, root, close, items, tail).item == Failed(UnmatchedOpening)
    ensures p < |t| && Closing(t[p]) && (root || t[p] != close) ==>
              ReadItems(t, p, root, close, items, tail).item == Failed(UnmatchedClosing)
    ensures p + 1 < |t| && t[p] == '.' && (t[p + 1] == ' ' || t[p + 1] == ')') && items == [] ==>
              ReadItems(t, p, root, close, items, tail).item == Failed(MissingCar)
    ensures p + 2 < |t| && t[p] == ' ' && t[p + 1] == '.' && t[p + 2] == ')' && items != [] ==>
              ReadItems(t, p, root, close, items, tail).item == Failed(MissingCdr)
  {
    hide ReadValue, SkipLine;
    if p + 2 < |t| && t[p] == ' ' && t[p + 1] == '.' && t[p + 2] == ')' && items != [] {
      assert SkipSpace(t, p) == p + 1;
      assert NonSymbol(t[p + 2]);
      assert ReadCdr(t, p + 2).item == Failed(MissingCdr);
    }
  }

  lemma FirstFails(t: string)
    requires t != [] && StartsValue(t[0]) && ReadValue(t, 0).item.Failed?
    ensures ReadAll(t) == ReadValue(t, 0).item
  {
    hide ReadValue, ReadCdr, SkipLine, NonSymbol;
  }

  // A list without its closing bracket, a closing bracket without a list or of
  // another kind, and a dot without a value before or behind it are errors.
  lemma BrokenListsFail(vs: seq<Value>, c: char)
    requires AllReadable(vs) && Closing(c)
    ensures ReadAll("(" + Lines(vs)) == Failed(UnmatchedOpening)
    ensures ReadAll(Lines(vs) + [c]) == Failed(UnmatchedClosing)
    ensures c != ')' ==> ReadAll("(" + Lines(vs) + [c]) == Failed(UnmatchedClosing)
    ensures vs != [] ==> ReadAll("(" + Lines(vs) + " .)") == Failed(MissingCdr)
  {
    hide ReadValue, ReadItems, Lines, Readable, Shown, On;
    OnWhole(Lines(vs) + [c]);
    OnSplit(Lines(vs) + [c], 0, Lines(vs), [c]);
    ItemsRead(Lines(vs) + [c], 0, true, ')', vs, []);
    FailureEnds(Lines(vs) + [c], |Lines(vs)|, true, ')', [] + KeptAll(vs), Nil);
    BrokenList(vs, "");
    FailureEnds("(" + Lines(vs) + "", 1 + |Lines(vs)|, false, ')', KeptAll(vs), Nil);
    assert "(" + Lines(vs) + "" == "(" + Lines(vs);
    BrokenList(vs, [c]);
    FailureEnds("(" + Lines(vs) + [c], 1 + |Lines(vs)|, false, ')', KeptAll(vs), Nil);
    BrokenList(vs, " .)");
    FailureEnds("(" + Lines(vs) + " .)", 1 + |Lines(vs)|, false, ')', KeptAll(vs), Nil);
  }

  lemma BrokenList(vs: seq<Value>, rest: string)
    requires AllReadable(vs) && (rest == "" || rest[0] == ' ' || Closing(rest[0]))
    ensures var t := "(" + Lines(vs) + rest;
            var r := ReadItems(t, 1 + |Lines(vs)|, false, ')', KeptAll(vs), Nil);
            r.item.Failed? ==> ReadAll(t) == r.item
  {
    hide ReadAll, ReadValue, ReadItems, Lines, Readable, Shown, On;
    var t := "(" + Lines(vs) + rest;
    assert t == "(" + (Lines(vs) + rest);
    OnWhole(t);
    OnSplit(t, 0, "(", Lines(vs) + rest);
    OnSplit(t, 1, Lines(vs), rest);
    if rest != "" {
      OnAt(t, 1 + |Lines(vs)|, rest, 0);
    }
    ItemsRead(t, 1, false, ')', vs, []);
    assert [] + KeptAll(vs) == KeptAll(vs);
    BracketStarts(t);
    if ReadValue(t, 0).item.Failed? {
      FirstFails(t);
    }
  }

  // Nothing between brackets reads as a list of #nil.
  lemma EmptyBracketsRead()
    ensures ReadAll("()") == Got(Pair(Pair(Nil, Nil), Nil))
    ensures ReadAll("[]") == Got(Pair(Pair(Sym("array/new"), Pair(Nil, Nil)), Nil))
    ensures ReadAll("{}") == Got(Pair(Pair(Sym("tree/new"), Pair(Nil, Nil)), Nil))
    ensures ReadAll("") == Got(Pair(Nil, Nil))
  {
    hide ReadValue;
    BracketStarts("()");
    BracketStarts("[]");
    BracketStarts("{}");
    OnlyItem("()", Pair(Nil, Nil));
    OnlyItem("[]", Pair(Sym("array/new"), Pair(Nil, Nil)));
    OnlyItem("{}", Pair(Sym("tree/new"), Pair(Nil, Nil)));
  }

  // A dot needs something before it.
  lemma LeadingDotFails(s: string)
    ensures ReadAll("(. " + s) == Failed(MissingCar)
  {
    hide ReadValue, ReadItems, ReadAll;
    var t := "(. " + s;
    FailureEnds(t, 1, false, ')', [], Nil);
    BracketStarts(t);
    FirstFails(t);
  }

  // ---- words

  // #nil, #t and #f, and nothing else, read as these; plain words are symbols,
  // with a colon at either end keywords.
  lemma WordsRead(s: string)
    requires PlainSymbol(s)
    ensures ReadAll("#nil") == Got(Pair(Nil, Nil))
    ensures ReadAll("#t") == Got(Pair(Bool(true), Nil)) && ReadAll("#f") == Got(Pair(Bool(false), Nil))
    ensures ReadAll(s) == Got(Pair(Sym(s), Nil))
    ensures ReadAll(":" + s) == ReadAll(s + ":") == Got(Pair(Kw(s), Nil))
  {
    hide ReadAll, ReadValue, AllPlain;
    OnWhole("#nil");
    OnWhole("#t");
    OnWhole("#f");
    NilReadsBack("#nil", 0);
    BoolReadsBack("#t", 0, true);
    BoolReadsBack("#f", 0, false);
    HashStarts();
    OnlyItem("#nil", Nil);
    OnlyItem("#t", Bool(true));
    OnlyItem("#f", Bool(false));
    OnWhole(s);
    SymReadsBack(s, 0, s);
    PlainStarts(s);
    OnlyItem(s, Sym(s));
    OnWhole(":" + s);
    KwReadsBack(":" + s, 0, s);
    ColonIsNoSpace();
    OnlyItem(":" + s, Kw(s));
    TrailingColon(s);
    OnlyItem(s + ":", Kw(s));
  }

  lemma PlainStarts(s: string)
    requires PlainSymbol(s)
    ensures StartsValue(s[0])
  {
    assert PlainChar(s[0]);
  }

  lemma ColonIsNoSpace()
    ensures StartsValue(':')
  {
  }

  lemma {:induction false} SymbolChars(t: string, p: nat, s: string, buf: string)
    requires On(t, p, s) && AllPlain(s) && |buf| + |s| < SYMBOL_SIZE
    ensures SymbolFrom(t, p, buf, false) == SymbolFrom(t, p + |s|, buf + s, false)
    decreases |s|
  {
    hide SymbolFrom, PlainChar;
    if s == [] {
      assert buf + s == buf;
    } else {
      OnAt(t, p, s, 0);
      assert s == s[..1] + s[1..];
      OnSplit(t, p, s[..1], s[1..]);
      SymbolChar(t, p, buf, false);
      SymbolChars(t, p + 1, s[1..], buf + [s[0]]);
      assert buf + [s[0]] + s[1..] == buf + s;
    }
  }

  lemma TrailingColon(s: string)
    requires PlainSymbol(s)
    ensures ReadValue(s + ":", 0) == Read(Got(Kw(s)), |s| + 1)
  {
    hide ReadValue, FinishSymbol, EndsWord;
    var t := s + ":";
    OnWhole(t);
    OnSplit(t, 0, s, ":");
    PlainIsWord(s[0]);
    assert s[0] == '-' ==> !IsDigit(At(t, 1));
    ValueIsSymbol(t, 0);
    SymbolChars(t, 0, s, "");
    assert "" + s == s;
    ColonEnds(t, s);
  }

  lemma ColonEnds(t: string, s: string)
    requires PlainSymbol(s) && t == s + ":"
    ensures SymbolFrom(t, |s|, s, false) == Read(Got(Kw(s)), |t|)
  {
    assert PlainChar(s[0]) && PlainChar(s[|s| - 1]);
  }

  // ---- escapes

  const ESCAPE_LETTERS := "0abtnvfre\"\\"
  const ESCAPE_CODES := [0, 7, 8, 9, 10, 11, 12, 13, 27, 34, 92]

  // What an escape letter stands for.
  lemma EscapeCode(c: char, i: nat)
    requires i < |ESCAPE_LETTERS| && c == ESCAPE_LETTERS[i]
    ensures Unescaped(c) == Some(ESCAPE_CODES[i] as char)
  {
  }

  lemma NoEscape(c: char)
    requires c !in ESCAPE_LETTERS
    ensures Unescaped(c) == None
  {
    forall d | d in ['0', 'a', 'b', 't', 'n', 'v', 'f', 'r', 'e', '\"', '\\'] ensures d in ESCAPE_LETTERS {
      assert ESCAPE_LETTERS == ['0', 'a', 'b', 't', 'n', 'v', 'f', 'r', 'e', '\"', '\\'];
    }
  }

  lemma StringStarts(t: string)
    requires t != [] && t[0] == '\"'
    ensures ReadValue(t, 0) == StringFrom(t, 1, "") && StartsValue('\"')
  {
    hide SymbolFrom, SpecialFrom, NumberFrom, ReadItems, StringFrom, SkipLine;
  }

  // Each escape letter stands for its character; any other letter is an error.
  lemma EscapesRead(c: char)
    ensures forall i :: 0 <= i < |ESCAPE_LETTERS| && c == ESCAPE_LETTERS[i] ==>
              ReadAll("\"\\" + [c] + "\"") == Got(Pair(Str([ESCAPE_CODES[i] as char]), Nil))
    ensures c !in ESCAPE_LETTERS ==> ReadAll("\"\\" + [c] + "\"") == Failed(UnknownEscape)
  {
    hide ReadAll;
    var t := "\"\\" + [c] + "\"";
    StringStarts(t);
    if c in ESCAPE_LETTERS {
      var i :| 0 <= i < |ESCAPE_LETTERS| && c == ESCAPE_LETTERS[i];
      EscapeCode(c, i);
      var s := [ESCAPE_CODES[i] as char];
      assert "" + s == s;
      assert StringFrom(t, 3, s) == Read(Got(Str(s)), 4);
      OnlyItem(t, Str(s));
    } else {
      NoEscape(c);
      FirstFails(t);
    }
  }

  // The printer writes them the same way, NUL apart, which ends the string.
  lemma EscapesWritten(i: nat)
    requires 0 < i < |ESCAPE_CODES|
    ensures Printed(Str([ESCAPE_CODES[i] as char])) == "\"\\" + [ESCAPE_LETTERS[i]] + "\""
  {
    var c := ESCAPE_CODES[i] as char;
    assert [c][1..] == "" && Quoted("") == "\"";
    assert Escaped(c) == "\\" + [ESCAPE_LETTERS[i]];
    assert Quoted([c]) == Escaped(c) + Quoted([c][1..]);
  }

  // A string without its closing quote, a colon inside a word, and a # before a
  // character that means nothing there are errors.
  lemma BrokenWordsFail(s: string, u: string, c: char)
    requires PlainSymbol(s) && AllPlain(u) && u != []
    ensures |u| + 1 < BUFFER_SIZE && '\\' !in u && '\"' !in u && '\0' !in u ==> ReadAll("\"" + u) == Failed(UnclosedString)
    ensures ReadAll(s + ":" + u) == Failed(MisplacedColon)
    ensures c !in "ntfxdob!;|\\m#@" ==> ReadAll("#" + [c]) == Failed(WrongSpecial)
  {
    hide ReadAll, ReadValue, AllPlain, StartsValue;
    if |u| + 1 < BUFFER_SIZE && '\\' !in u && '\"' !in u && '\0' !in u {
      var t := "\"" + u;
      OnWhole(t);
      OnSplit(t, 0, "\"", u);
      StringStarts(t);
      StringOpen(t, 1, u, "");
      FirstFails(t);
    }
    ColonInside(s, u);
    PlainStarts(s);
    FirstFails(s + ":" + u);
    if c !in "ntfxdob!;|\\m#@" {
      SpecialFails("#" + [c], c);
      HashStarts();
      FirstFails("#" + [c]);
    }
  }

  lemma {:induction false} StringOpen(t: string, p: nat, u: string, buf: string)
    requires On(t, p, u) && p + |u| == |t| && '\\' !in u && '\"' !in u && '\0' !in u && |buf| + |u| + 1 < BUFFER_SIZE
    ensures StringFrom(t, p, buf) == Read(Failed(UnclosedString), |t|)
    decreases |u|
  {
    if u != [] {
      OnAt(t, p, u, 0);
      assert u == u[..1] + u[1..];
      OnSplit(t, p, u[..1], u[1..]);
      StringOpen(t, p + 1, u[1..], buf + [u[0]]);
    }
  }

  lemma ColonInside(s: string, u: string)
    requires PlainSymbol(s) && AllPlain(u) && u != []
    ensures ReadValue(s + ":" + u, 0).item == Failed(MisplacedColon)
  {
    hide ReadValue, FinishSymbol;
    var t := s + ":" + u;
    assert t == s + (":" + u);
    OnWhole(t);
    OnSplit(t, 0, s, ":" + u);
    PlainIsWord(s[0]);
    assert s[0] == '-' ==> !IsDigit(At(t, 1));
    ValueIsSymbol(t, 0);
    SymbolChars(t, 0, s, "");
    assert "" + s == s;
    assert t[|s|] == ':' && t[|s| + 1] == u[0] && PlainChar(u[0]);
  }

  lemma SpecialFails(t: string, c: char)
    requires t == "#" + [c] && c !in "ntfxdob!;|\\m#@"
    ensures ReadValue(t, 0) == Read(Failed(WrongSpecial), 2)
  {
    hide ReadItems, StringFrom, SymbolFrom, NumberFrom, SkipLine;
    forall d | d in ['n', 't', 'f', 'x', 'd', 'o', 'b', '!', ';', '|', '\\', 'm', '#', '@'] ensures d in "ntfxdob!;|\\m#@" {
      assert "ntfxdob!;|\\m#@" == ['n', 't', 'f', 'x', 'd', 'o', 'b', '!', ';', '|', '\\', 'm', '#', '@'];
    }
    assert t[1] == c;
  }

  // ---- the text of lists and strings

  // A list is its items with a space between any two, in parentheses.
  lemma ListText(vs: seq<Value>)
    requires vs != [] && forall i :: 0 <= i < |vs| ==> Shown(vs[i])
    requires !(|vs| == 2 && vs[0] == Sym("quote"))
    ensures Shown(ListTo(vs, Nil)) && Printed(ListTo(vs, Nil)) == "(" + Lines(vs) + ")"
  {
    hide Printed, Tail, ListTo, Lines;
    ItemsText(vs, true);
    ParenthesesText(vs);
  }

  lemma ParenthesesText(vs: seq<Value>)
    requires vs != [] && Shown(ListTo(vs, Nil)) && !(|vs| == 2 && vs[0] == Sym("quote"))
    ensures Printed(ListTo(vs, Nil)) == "(" + Tail(ListTo(vs, Nil), true) + ")"
  {
    hide Tail;
    var v := ListTo(vs, Nil);
    if |vs| > 1 {
      assert v.cdr == ListTo(vs[1..], Nil);
      if |vs| > 2 {
        assert v.cdr.cdr == ListTo(vs[1..][1..], Nil);
      }
    }
  }

  lemma {:induction false} ItemsText(vs: seq<Value>, first: bool)
    requires forall i :: 0 <= i < |vs| ==> Shown(vs[i])
    ensures Shown(ListTo(vs, Nil))
    ensures first || vs == [] ==> Tail(ListTo(vs, Nil), first) == Lines(vs)
    ensures !first && vs != [] ==> Tail(ListTo(vs, Nil), first) == " " + Lines(vs)
    decreases |vs|
  {
    hide Printed;
    if vs != [] {
      ItemsText(vs[1..], false);
    }
  }

  // A string of ordinary characters stands between quotes as it is.
  lemma StringText(s: string)
    requires forall i :: 0 <= i < |s| ==> !Control(s[i]) && s[i] != '\0' && s[i] != '\"' && s[i] != '\\'
    ensures Printed(Str(s)) == "\"" + s + "\""
  {
    hide Quoted;
    QuotedText(s);
    assert "\"" + (s + "\"") == "\"" + s + "\"";
  }

  lemma {:induction false} QuotedText(s: string)
    requires forall i :: 0 <= i < |s| ==> !Control(s[i]) && s[i] != '\0' && s[i] != '\"' && s[i] != '\\'
    ensures Quoted(s) == s + "\""
    decreases |s|
  {
    if s != [] {
      QuotedText(s[1..]);
      assert Escaped(s[0]) == [s[0]];
      assert [s[0]] + (s[1..] + "\"") == s + "\"";
    }
  }

  // ---- numerals

  // The characters of a numeral: digits in either case, and separators.
  datatype Mark = Small(d: nat) | Capital(d: nat) | Underscore | Comma

  const SMALL := "0123456789abcdef"
  const CAPITALS := "0123456789ABCDEF"

  predicate IsMark(m: Mark, base: nat)
    requires base <= 16
  {
    (m.Small? ==> m.d < base) && (m.Capital? ==> m.d < base)
  }

  predicate IsNumeral(ms: seq<Mark>, base: nat)
    requires base <= 16
  {
    forall i :: 0 <= i < |ms| ==> IsMark(ms[i], base)
  }

  function MarkChar(m: Mark): char
    requires IsMark(m, 16)
  {
    match m
    case Small(d) => SMALL[d]
    case Capital(d) => CAPITALS[d]
    case Underscore => '_'
    case Comma => ','
  }

  function Spelled(ms: seq<Mark>): (s: string)
    requires IsNumeral(ms, 16)
    ensures |s| == |ms|
  {
    if ms == [] then "" else [MarkChar(ms[0])] + Spelled(ms[1..])
  }

  function DigitCountOf(ms: seq<Mark>): (n: nat)
    ensures n <= |ms|
  {
    if ms == [] then 0 else (if ms[0].Small? || ms[0].Capital? then 1 else 0) + DigitCountOf(ms[1..])
  }

  // Positional value, the leftmost digit weighing most.
  function Weighed(ms: seq<Mark>, base: nat): nat {
    if ms == [] then 0
    else (if ms[0].Small? || ms[0].Capital? then ms[0].d * Power(base, DigitCountOf(ms[1..])) else 0) + Weighed(ms[1..], base)
  }

  lemma SameWrap(x: int, y: int, k: int)
    requires x == y + k * TWO_64
    ensures Wrap64(x) == Wrap64(y)
  {
    var a, b := x + TWO_63, y + TWO_63;
    assert a == b + k * TWO_64;
    assert a % TWO_64 == b % TWO_64;
  }

  lemma WrapInside(x: int, base: nat, d: int)
    ensures Wrap64(Wrap64(x) * base + d) == Wrap64(x * base + d) && Wrap64(-Wrap64(x)) == Wrap64(-x)
  {
    var k := (Wrap64(x) - x) / TWO_64;
    assert Wrap64(x) == x + k * TWO_64;
    assert Wrap64(x) * base + d == x * base + d + (k * base) * TWO_64;
    SameWrap(Wrap64(x) * base + d, x * base + d, k * base);
    SameWrap(-Wrap64(x), -x, -k);
  }

  lemma MarkRead(t: string, p: nat, m: Mark, base: nat, max: nat, acc: int, digits: nat)
    requires base <= 16 && IsMark(m, base) && p < |t| && t[p] == MarkChar(m)
    ensures m.Small? || m.Capital? ==>
              DigitsFrom(t, p, base, max, acc, digits) ==
              if digits + 1 > max then Read(Failed(LiteralTooBig), p)
              else DigitsFrom(t, p + 1, base, max, Wrap64(acc * base + m.d), digits + 1)
    ensures m.Underscore? || m.Comma? ==>
              DigitsFrom(t, p, base, max, acc, digits) == DigitsFrom(t, p + 1, base, max, acc, digits)
  {
    hide Wrap64;
    if m.Small? || m.Capital? {
      MarkIsDigit(m);
    }
  }

  lemma MarkIsDigit(m: Mark)
    requires (m.Small? || m.Capital?) && m.d < 16
    ensures var c := MarkChar(m); DigitOf(c) == Some(m.d) && !(c <= ' ') && !NonSymbol(c) && c != '.'
  {
  }

  // The digits weigh what their places say, and no more than `max` are read.
  lemma {:induction false} MarksRead(t: string, p: nat, ms: seq<Mark>, base: nat, max: nat, x: int, digits: nat)
    requires base <= 16 && IsNumeral(ms, base) && On(t, p, Spelled(ms)) && p + |ms| <= |t| && digits <= max
    ensures var r := DigitsFrom(t, p, base, max, Wrap64(x), digits);
            if digits + DigitCountOf(ms) <= max
            then r == DigitsFrom(t, p + |ms|, base, max,
                                 Wrap64(x * Power(base, DigitCountOf(ms)) + Weighed(ms, base)), digits + DigitCountOf(ms))
            else r.item == Failed(LiteralTooBig)
    decreases |ms|
  {
    hide DigitsFrom, Wrap64, On;
    if ms == [] {
      assert x * 1 == x;
    } else {
      var rest := ms[1..];
      assert Spelled(ms) == [MarkChar(ms[0])] + Spelled(rest);
      OnSplit(t, p, [MarkChar(ms[0])], Spelled(rest));
      OnAt(t, p, [MarkChar(ms[0])], 0);
      MarkRead(t, p, ms[0], base, max, Wrap64(x), digits);
      if !(ms[0].Small? || ms[0].Capital?) {
        MarksRead(t, p + 1, rest, base, max, x, digits);
      } else if digits < max {
        var d := ms[0].d;
        WrapInside(x, base, d);
        MarksRead(t, p + 1, rest, base, max, x * base + d, digits + 1);
        assert Power(base, DigitCountOf(ms)) == base * Power(base, DigitCountOf(rest));
        Horner(x, base, d, Power(base, DigitCountOf(rest)));
      }
    }
  }

  lemma Horner(x: int, base: int, d: int, w: int)
    ensures (x * base + d) * w == x * (base * w) + d * w
  {
  }

  lemma NumeralEnds(t: string, base: nat, max: nat, acc: int, digits: nat)
    ensures DigitsFrom(t, |t|, base, max, acc, digits) == Read(Got(Int(acc)), |t|)
  {
  }

  function Sign(negative: bool): string { if negative then "-" else "" }

  function WithSign(negative: bool, n: int): int { if negative then -n else n }

  // A numeral behind an optional sign.
  lemma SignedRead(t: string, p: nat, negative: bool, ms: seq<Mark>, base: nat, max: nat)
    requires base <= 16 && IsNumeral(ms, base) && On(t, p, Sign(negative) + Spelled(ms))
    requires p + |Sign(negative)| + |ms| == |t|
    ensures var r := NumberFrom(t, p, base, max);
            if DigitCountOf(ms) <= max
            then r == Read(Got(Int(Wrap64(WithSign(negative, Weighed(ms, base))))), |t|)
            else r.item == Failed(LiteralTooBig)
  {
    hide DigitsFrom, Wrap64, On, Weighed, Power, DigitCountOf, Spelled;
    OnSplit(t, p, Sign(negative), Spelled(ms));
    SignSeen(t, p, negative, ms);
    var q := p + |Sign(negative)|;
    UnsignedRead(t, q, ms, base, max);
    WrapInside(Weighed(ms, base), 0, 0);
  }

  lemma SignSeen(t: string, p: nat, negative: bool, ms: seq<Mark>)
    requires IsNumeral(ms, 16) && On(t, p, Sign(negative)) && On(t, p + |Sign(negative)|, Spelled(ms))
    requires p + |Sign(negative)| + |ms| == |t|
    ensures At(t, p) == '-' <==> negative
  {
    if negative {
      OnAt(t, p, "-", 0);
    } else if ms != [] {
      OnAt(t, p, Spelled(ms), 0);
      NoSign(ms[0]);
    }
  }

  lemma UnsignedRead(t: string, p: nat, ms: seq<Mark>, base: nat, max: nat)
    requires base <= 16 && IsNumeral(ms, base) && On(t, p, Spelled(ms)) && p + |ms| == |t|
    ensures var r := DigitsFrom(t, p, base, max, 0, 0);
            if DigitCountOf(ms) <= max then r == Read(Got(Int(Wrap64(Weighed(ms, base)))), |t|)
            else r.item == Failed(LiteralTooBig)
  {
    hide DigitsFrom, Wrap64, On, Weighed, DigitCountOf, Spelled;
    MarksRead(t, p, ms, base, max, 0, 0);
    NumeralEnds(t, base, max, Wrap64(Weighed(ms, base)), DigitCountOf(ms));
    NothingWraps();
    assert 0 * Power(base, DigitCountOf(ms)) == 0;
  }

  lemma NoSign(m: Mark)
    requires IsMark(m, 16)
    ensures MarkChar(m) != '-'
  {
    if m.Small? || m.Capital? {
      MarkIsDigit(m);
    }
  }

  lemma NothingWraps()
    ensures Wrap64(0) == 0
  {
  }

  const RADIXES := [('x', 16, 16), ('d', 10, 18), ('o', 8, 21), ('b', 2, 64)]

  // #x, #d, #o and #b read numerals of base 16, 10, 8 and 2 with digits in
  // either case and separators anywhere, up to 16, 18, 21 and 64 digits; the
  // value is cut to 64 bits.
  lemma NumeralsRead(ms: seq<Mark>, negative: bool, letter: char, base: nat, max: nat)
    requires (letter, base, max) in RADIXES && IsNumeral(ms, base)
    ensures base <= 16
    ensures ReadAll("#" + [letter] + Sign(negative) + Spelled(ms)) ==
            if DigitCountOf(ms) <= max
            then Got(Pair(Int(Wrap64(WithSign(negative, Weighed(ms, base)))), Nil))
            else Failed(LiteralTooBig)
  {
    hide ReadAll, ReadValue, NumberFrom, Wrap64;
    var sign := Sign(negative);
    var t := "#" + [letter] + sign + Spelled(ms);
    assert t == ("#" + [letter]) + (sign + Spelled(ms));
    OnWhole(t);
    OnSplit(t, 0, "#" + [letter], sign + Spelled(ms));
    SignedRead(t, 2, negative, ms, base, max);
    RadixStarts(t, letter, base, max);
    HashStarts();
    if DigitCountOf(ms) <= max {
      OnlyItem(t, Int(Wrap64(WithSign(negative, Weighed(ms, base)))));
    } else {
      FirstFails(t);
    }
  }

  lemma RadixStarts(t: string, letter: char, base: nat, max: nat)
    requires (letter, base, max) in RADIXES && |t| >= 2 && t[0] == '#' && t[1] == letter
    ensures ReadValue(t, 0) == NumberFrom(t, 2, base, max)
  {
    hide NumberFrom, ReadItems, StringFrom, SymbolFrom, SkipLine;
  }

  // A character that is no digit of the base, no separator and no end of the
  // word is an error.
  lemma WrongDigitsFail(ms: seq<Mark>, letter: char, base: nat, max: nat, c: char, rest: string)
    requires (letter, base, max) in RADIXES && IsNumeral(ms, base) && DigitCountOf(ms) <= max && ms != []
    requires c !in SMALL[..base] && c !in CAPITALS[..base]
    requires c > ' ' && !NonSymbol(c) && c !in "_,."
    ensures ReadAll("#" + [letter] + Spelled(ms) + [c] + rest) == Failed(WrongDigit)
  {
    hide ReadAll, ReadValue, NumberFrom, DigitsFrom, Wrap64, Spelled, NonSymbol, Weighed, DigitCountOf, Power, On;
    var t := "#" + [letter] + Spelled(ms) + [c] + rest;
    assert t == ("#" + [letter]) + (Spelled(ms) + ([c] + rest));
    OnWhole(t);
    OnSplit(t, 0, "#" + [letter], Spelled(ms) + ([c] + rest));
    OnSplit(t, 2, Spelled(ms), [c] + rest);
    OnAt(t, 2 + |ms|, [c] + rest, 0);
    OnAt(t, 2, Spelled(ms), 0);
    FirstMark(ms);
    NothingWraps();
    MarksRead(t, 2, ms, base, max, 0, 0);
    assert 0 * Power(base, DigitCountOf(ms)) == 0;
    NoDigit(t, 2 + |ms|, c, base, max, Wrap64(Weighed(ms, base)), DigitCountOf(ms));
    NumberFails(t, 2, base, max);
    RadixStarts(t, letter, base, max);
    HashStarts();
    FirstFails(t);
  }

  lemma FirstMark(ms: seq<Mark>)
    requires ms != [] && IsNumeral(ms, 16)
    ensures Spelled(ms)[0] != '-'
  {
    NoSign(ms[0]);
  }

  lemma NumberFails(t: string, p: nat, base: nat, max: nat)
    requires p <= |t| && At(t, p) != '-' && DigitsFrom(t, p, base, max, 0, 0).item.Failed?
    ensures NumberFrom(t, p, base, max).item == DigitsFrom(t, p, base, max, 0, 0).item
  {
    hide DigitsFrom;
  }

  lemma NoDigit(t: string, p: nat, c: char, base: nat, max: nat, acc: int, digits: nat)
    requires base <= 16 && c !in SMALL[..base] && c !in CAPITALS[..base]
    requires c > ' ' && !NonSymbol(c) && c !in "_,." && p < |t| && t[p] == c
    ensures DigitsFrom(t, p, base, max, acc, digits) == Read(Failed(WrongDigit), p)
  {
    hide Wrap64, NonSymbol;
    assert c != '_' && c != ',' && c != '.';
    if DigitOf(c).Some? {
      LargeDigit(c, base);
    }
  }

  lemma LargeDigit(c: char, base: nat)
    requires DigitOf(c).Some? && base <= 16 && c !in SMALL[..base] && c !in CAPITALS[..base]
    ensures DigitOf(c).value >= base
  {
    var d := DigitOf(c).value;
    if d < 16 {
      DigitIsMark(c);
      forall b | d < b <= 16 ensures c in SMALL[..b] || c in CAPITALS[..b] {
        assert SMALL[..b][d] == SMALL[d] && CAPITALS[..b][d] == CAPITALS[d];
      }
    }
  }

  lemma DigitIsMark(c: char)
    requires DigitOf(c).Some? && DigitOf(c).value < 16
    ensures c == SMALL[DigitOf(c).value] || c == CAPITALS[DigitOf(c).value]
  {
  }

  // Without a prefix, what starts with a digit, or with a sign and a digit, is
  // decimal.
  lemma DecimalsRead(ms: seq<Mark>, negative: bool)
    requires IsNumeral(ms, 10) && ms != [] && (ms[0].Small? || ms[0].Capital?)
    ensures ReadAll(Sign(negative) + Spelled(ms)) ==
            if DigitCountOf(ms) <= 18
            then Got(Pair(Int(WithSign(negative, Weighed(ms, 10))), Nil))
            else Failed(LiteralTooBig)
  {
    hide ReadAll, ReadValue, NumberFrom, Wrap64;
    var sign := Sign(negative);
    var t := sign + Spelled(ms);
    OnWhole(t);
    SignedRead(t, 0, negative, ms, 10, 18);
    DecimalStarts(t, ms, negative);
    if DigitCountOf(ms) <= 18 {
      SmallWeight(ms);
      FitsExactly(Weighed(ms, 10));
      OnlyItem(t, Int(WithSign(negative, Weighed(ms, 10))));
    } else {
      FirstFails(t);
    }
  }

  lemma DecimalStarts(t: string, ms: seq<Mark>, negative: bool)
    requires IsNumeral(ms, 10) && ms != [] && (ms[0].Small? || ms[0].Capital?)
    requires t == Sign(negative) + Spelled(ms)
    ensures StartsValue(t[0]) && ReadValue(t, 0) == NumberFrom(t, 0, 10, 18)
  {
    hide NumberFrom, ReadItems, StringFrom, SymbolFrom, SkipLine, SpecialFrom;
    assert IsDigit(MarkChar(ms[0])) by { DecimalMark(ms[0]); }
    assert Spelled(ms)[0] == MarkChar(ms[0]);
  }

  lemma DecimalMark(m: Mark)
    requires (m.Small? || m.Capital?) && m.d < 10
    ensures IsDigit(MarkChar(m))
  {
  }

  lemma {:induction false} WeightBound(ms: seq<Mark>)
    requires IsNumeral(ms, 10)
    ensures Weighed(ms, 10) < Power(10, DigitCountOf(ms))
    decreases |ms|
  {
    if ms != [] {
      WeightBound(ms[1..]);
      if ms[0].Small? || ms[0].Capital? {
        hide Power;
        Carry(ms[0].d, Power(10, DigitCountOf(ms[1..])), Weighed(ms[1..], 10));
        PowerOfMore(DigitCountOf(ms[1..]));
      }
    }
  }

  lemma Carry(d: nat, w: nat, r: nat)
    requires d < 10 && r < w
    ensures d * w + r < 10 * w
  {
    assert d * w <= 9 * w;
  }

  lemma PowerOfMore(k: nat)
    ensures Power(10, k + 1) == 10 * Power(10, k)
  {
  }

  lemma {:induction false} PowersGrow(j: nat, k: nat)
    requires j <= k
    ensures 0 < Power(10, j) <= Power(10, k)
    decreases k
  {
    if j < k {
      PowersGrow(j, k - 1);
    } else if k > 0 {
      PowersGrow(j - 1, k - 1);
    }
  }

  lemma SmallWeight(ms: seq<Mark>)
    requires IsNumeral(ms, 10) && DigitCountOf(ms) <= 18
    ensures Weighed(ms, 10) < INT_LIMIT
  {
    WeightBound(ms);
    PowersGrow(DigitCountOf(ms), 18);
    assert Power(10, 6) == 1_000_000;
    assert Power(10, 12) == 1_000_000_000_000;
  }

  lemma FitsExactly(x: int)
    requires 0 <= x < INT_LIMIT
    ensures Wrap64(x) == x && Wrap64(-x) == -x
  {
  }
}
