/** The argv printer FormatCommand and the word splitter shellSplit of internal/worker/command.go.
    A char stands for one byte: every character that matters is ASCII. */
module ShellWords {
  import opened Wrappers

  // ---------------------------------------------------------------- FormatCommand

  predicate SafeChar(c: char) {
    || 'A' <= c <= 'Z' || 'a' <= c <= 'z' || '0' <= c <= '9'
    || c in {'_', '.', '/', ':', '\\', '%', '(', ')', '+', ',', '=', '@', '-'}
  }

  predicate Safe(arg: string) {
    arg != "" && forall i :: 0 <= i < |arg| ==> SafeChar(arg[i])
  }

  function ReplaceAll(s: string, c: char, with: string): string {
    if s == "" then "" else (if s[0] == c then with else [s[0]]) + ReplaceAll(s[1..], c, with)
  }

  function Escape(arg: string): string {
    ReplaceAll(ReplaceAll(arg, '\\', "\\\\"), '"', "\\\"")
  }

  function Part(arg: string): string {
    if Safe(arg) then arg else "\"" + Escape(arg) + "\""
  }

  function Join(parts: seq<string>): string {
    if parts == [] then "" else if |parts| == 1 then parts[0] else parts[0] + " " + Join(parts[1..])
  }

  function Parts(cmd: seq<string>): seq<string> {
    seq(|cmd|, i requires 0 <= i < |cmd| => Part(cmd[i]))
  }

  function Format(cmd: seq<string>): string {
    Join(Parts(cmd))
  }

  method FormatCommand(cmd: seq<string>) returns (text: string)
    ensures text == Format(cmd)
  {
    var parts: seq<string> := [];
    for i := 0 to |cmd|
      invariant parts == Parts(cmd)[..i]
    {
      var arg := cmd[i];
      if Safe(arg) {
        parts := parts + [arg];
      } else {
        var escaped := ReplaceAll(arg, '\\', "\\\\");
        escaped := ReplaceAll(escaped, '"', "\\\"");
        parts := parts + ["\"" + escaped + "\""];
      }
    }
    assert parts == Parts(cmd);
    text := Join(parts);
  }

  /** What follows the first argument in the text. */
  function Tail(cmd: seq<string>): string {
    if |cmd| <= 1 then "" else " " + Format(cmd[1..])
  }

  lemma FormatHead(cmd: seq<string>)
    requires cmd != []
    ensures Format(cmd) == Part(cmd[0]) + Tail(cmd)
  {
    assert Parts(cmd)[1..] == Parts(cmd[1..]);
    if |cmd| == 1 {
      assert Part(cmd[0]) + "" == Part(cmd[0]);
    } else {
      assert Part(cmd[0]) + " " + Join(Parts(cmd[1..])) == Part(cmd[0]) + (" " + Join(Parts(cmd[1..])));
    }
  }

  // ---------------------------------------------------------------- shellSplit

  datatype Lexer = Lexer(tokens: seq<string>, cur: string, started: bool, inDouble: bool, inSingle: bool)

  const FRESH := Lexer([], "", false, false, false)

  predicate IsBlank(c: char) { c == ' ' || c == '\t' }

  function Lexed(l: Lexer, c: char): Lexer {
    if c == '"' && !l.inSingle then l.(inDouble := !l.inDouble, started := true)
    else if c == '\'' && !l.inDouble then l.(inSingle := !l.inSingle, started := true)
    else if IsBlank(c) && !l.inDouble && !l.inSingle then
      if l.started then l.(tokens := l.tokens + [l.cur], cur := "", started := false) else l
    else l.(cur := l.cur + [c], started := true)
  }

  function LexedAll(l: Lexer, s: string): Lexer
    decreases |s|
  {
    if s == "" then l else LexedAll(Lexed(l, s[0]), s[1..])
  }

  function Finished(l: Lexer): Option<seq<string>> {
    if l.inDouble || l.inSingle then None
    else Some(if l.started then l.tokens + [l.cur] else l.tokens)
  }

  /** The words of s, or None when a quote is left open. */
  function Split(s: string): Option<seq<string>> {
    Finished(LexedAll(FRESH, s))
  }

  method ShellSplit(s: string) returns (r: Option<seq<string>>)
    ensures r == Split(s)
  {
    var tokens: seq<string>, cur := [], "";
    var started, inDouble, inSingle := false, false, false;
    for i := 0 to |s|
      invariant Split(s) == Finished(LexedAll(Lexer(tokens, cur, started, inDouble, inSingle), s[i..]))
    {
      var c := s[i];
      assert s[i..][1..] == s[i + 1..];
      if c == '"' && !inSingle {
        inDouble := !inDouble;
        started := true;
      } else if c == '\'' && !inDouble {
        inSingle := !inSingle;
        started := true;
      } else if IsBlank(c) && !inDouble && !inSingle {
        if started {
          tokens := tokens + [cur];
          cur := "";
          started := false;
        }
      } else {
        cur := cur + [c];
        started := true;
      }
    }
    assert s[|s|..] == "";
    if inDouble || inSingle {
      return None;
    }
    if started {
      tokens := tokens + [cur];
    }
    return Some(tokens);
  }

  lemma {:induction false} LexedAppend(l: Lexer, s: string, t: string)
    ensures LexedAll(l, s + t) == LexedAll(LexedAll(l, s), t)
    decreases |s|
  {
    if s == "" {
      assert s + t == t;
    } else {
      assert (s + t)[1..] == s[1..] + t;
      LexedAppend(Lexed(l, s[0]), s[1..], t);
    }
  }

  // ---------------------------------------------------------------- the grammar

  /** The words of POSIX.1-2017 Shell Command Language section 2.2, without expansions and with a
      literal backslash: blanks, bare characters, and quoted strings without their own quote. */
  datatype Item = Blank(c: char) | Bare(c: char) | Double(text: string) | Single(text: string)

  predicate ValidItem(item: Item) {
    match item
    case Blank(c) => c == ' ' || c == '\t'
    case Bare(c) => c !in {'"', '\'', ' ', '\t'}
    case Double(text) => '"' !in text
    case Single(text) => '\'' !in text
  }

  function Render(item: Item): string {
    match item
    case Blank(c) => [c]
    case Bare(c) => [c]
    case Double(text) => "\"" + text + "\""
    case Single(text) => "'" + text + "'"
  }

  function Value(item: Item): string {
    match item
    case Blank(_) => ""
    case Bare(c) => [c]
    case Double(text) => text
    case Single(text) => text
  }

  function RenderAll(items: seq<Item>): string {
    if items == [] then "" else Render(items[0]) + RenderAll(items[1..])
  }

  predicate Opens(items: seq<Item>) {
    items != [] && !items[0].Blank?
  }

  /** A word is a maximal run of items other than blanks. */
  function Words(items: seq<Item>): (words: seq<string>)
    ensures Opens(items) ==> words != []
    decreases |items|, 0
  {
    if items == [] then []
    else if items[0].Blank? then Words(items[1..])
    else Joined(Value(items[0]), items[1..])
  }

  /** The words of `items` when `cur` stands immediately before them. */
  function Joined(cur: string, items: seq<Item>): (words: seq<string>)
    ensures words != []
    decreases |items|, 1
  {
    if Opens(items) then var words := Words(items); [cur + words[0]] + words[1..]
    else [cur] + Words(items)
  }

  ghost predicate Valid(items: seq<Item>) {
    forall i :: 0 <= i < |items| ==> ValidItem(items[i])
  }

  lemma {:induction false} LexedQuoted(l: Lexer, text: string)
    requires l.started && (l.inDouble || l.inSingle)
    requires l.inDouble ==> !l.inSingle && '"' !in text
    requires l.inSingle ==> !l.inDouble && '\'' !in text
    ensures LexedAll(l, text) == l.(cur := l.cur + text)
    decreases |text|
  {
    if text == "" {
      assert l.cur + text == l.cur;
    } else {
      LexedQuoted(Lexed(l, text[0]), text[1..]);
      assert l.cur + [text[0]] + text[1..] == l.cur + text;
    }
  }

  lemma LexedItem(l: Lexer, item: Item)
    requires !l.inDouble && !l.inSingle && ValidItem(item)
    ensures LexedAll(l, Render(item)) ==
      if !item.Blank? then l.(cur := l.cur + Value(item), started := true)
      else if l.started then l.(tokens := l.tokens + [l.cur], cur := "", started := false)
      else l
  {
    if item.Double? || item.Single? {
      var quote := if item.Double? then "\"" else "'";
      var inside := Lexed(l, quote[0]);
      assert quote + item.text + quote == quote + (item.text + quote);
      LexedAppend(l, quote, item.text + quote);
      LexedAppend(inside, item.text, quote);
      LexedQuoted(inside, item.text);
      assert LexedAll(l, quote) == inside;
    }
  }

  lemma {:induction false} LexedItems(l: Lexer, items: seq<Item>)
    requires !l.inDouble && !l.inSingle && (l.started || l.cur == "") && Valid(items)
    ensures Finished(LexedAll(l, RenderAll(items))) ==
            Some(l.tokens + (if l.started then Joined(l.cur, items) else Words(items)))
    decreases |items|
  {
    if items == [] {
      assert l.tokens + [] == l.tokens && [l.cur] + [] == [l.cur];
    } else {
      var item, rest := items[0], items[1..];
      LexedAppend(l, Render(item), RenderAll(rest));
      LexedItem(l, item);
      var l' := LexedAll(l, Render(item));
      LexedItems(l', rest);
      if item.Blank? {
        if l.started {
          assert l.tokens + [l.cur] + Words(rest) == l.tokens + ([l.cur] + Words(rest));
        }
      } else if l.started {
        JoinedJoined(l.cur, Value(item), rest);
      } else {
        assert l.cur + Value(item) == Value(item);
      }
    }
  }

  lemma JoinedJoined(cur: string, value: string, rest: seq<Item>)
    ensures Joined(cur + value, rest) == var words := Joined(value, rest); [cur + words[0]] + words[1..]
  {
    if Opens(rest) {
      var w := Words(rest)[0];
      assert cur + value + w == cur + (value + w);
    }
  }

  /** Every text of the grammar is split into its words. */
  lemma SplitOfRendered(items: seq<Item>)
    requires Valid(items)
    ensures Split(RenderAll(items)) == Some(Words(items))
  {
    LexedItems(FRESH, items);
    assert [] + Words(items) == Words(items);
  }

  function IndexOf(s: string, c: char): (i: nat)
    ensures i <= |s|
    ensures i < |s| ==> s[i] == c
    ensures forall j :: 0 <= j < i ==> s[j] != c
  {
    if s == "" || s[0] == c then 0 else 1 + IndexOf(s[1..], c)
  }

  /** A text is accepted exactly when it belongs to the grammar. */
  lemma {:induction false} SplitAcceptsGrammar(s: string) returns (items: seq<Item>)
    ensures Split(s).Some? ==> Valid(items) && RenderAll(items) == s && Split(s) == Some(Words(items))
    ensures Split(s).None? ==> !exists items: seq<Item> :: Valid(items) && RenderAll(items) == s
  {
    items := Itemized(FRESH, s);
    if Split(s).Some? {
      SplitOfRendered(items);
    } else {
      forall items: seq<Item> | Valid(items) ensures RenderAll(items) != s {
        SplitOfRendered(items);
      }
    }
  }

  /** The quoted item at the start of an accepted text. */
  lemma QuotedItem(l: Lexer, s: string) returns (item: Item, rest: string)
    requires !l.inDouble && !l.inSingle && s != "" && (s[0] == '"' || s[0] == '\'')
    requires Finished(LexedAll(l, s)).Some?
    ensures ValidItem(item) && !item.Blank? && s == Render(item) + rest && |rest| < |s|
  {
    var c := s[0];
    var k := IndexOf(s[1..], c);
    var text := s[1..][..k];
    item := if c == '"' then Double(text) else Single(text);
    if k == |s[1..]| {
      assert text == s[1..];
      LexedQuoted(Lexed(l, c), text);
    } else {
      rest := s[k + 2..];
      assert s == [c] + text + [c] + rest;
    }
  }

  lemma {:induction false} Itemized(l: Lexer, s: string) returns (items: seq<Item>)
    requires !l.inDouble && !l.inSingle
    ensures Finished(LexedAll(l, s)).Some? ==> Valid(items) && RenderAll(items) == s
    decreases |s|
  {
    items := [];
    if s != "" && Finished(LexedAll(l, s)).Some? {
      var c := s[0];
      var item, tail;
      if c == '"' || c == '\'' {
        item, tail := QuotedItem(l, s);
      } else {
        item, tail := if IsBlank(c) then Blank(c) else Bare(c), s[1..];
        assert s == Render(item) + tail;
      }
      LexedAppend(l, Render(item), tail);
      LexedItem(l, item);
      var rest := Itemized(LexedAll(l, Render(item)), tail);
      items := [item] + rest;
      assert items[1..] == rest;
    }
  }

  // ---------------------------------------------------------------- round trip

  /** What a caller can check before formatting: no quoted argument needs an escape. */
  predicate Plain(arg: string) {
    Safe(arg) || ('"' !in arg && '\\' !in arg)
  }

  lemma {:induction false} ReplaceNothing(s: string, c: char, with: string)
    requires c !in s
    ensures ReplaceAll(s, c, with) == s
  {
    if s != "" {
      ReplaceNothing(s[1..], c, with);
    }
  }

  /** Bare characters for a safe argument, one double-quoted item for any other. */
  function Items(arg: string): seq<Item> {
    if Safe(arg) then seq(|arg|, i requires 0 <= i < |arg| => Bare(arg[i])) else [Double(arg)]
  }

  function ItemsAll(cmd: seq<string>): seq<Item>
    decreases |cmd|, 1
  {
    if cmd == [] then [] else Items(cmd[0]) + ItemsTail(cmd)
  }

  function ItemsTail(cmd: seq<string>): (items: seq<Item>)
    requires cmd != []
    ensures !Opens(items)
    decreases |cmd|, 0
  {
    if |cmd| == 1 then [] else [Blank(' ')] + ItemsAll(cmd[1..])
  }

  lemma {:induction false} RenderAppend(a: seq<Item>, b: seq<Item>)
    ensures RenderAll(a + b) == RenderAll(a) + RenderAll(b)
  {
    if a == [] {
      assert a + b == b;
    } else {
      assert (a + b)[1..] == a[1..] + b;
      RenderAppend(a[1..], b);
    }
  }

  lemma {:induction false} BareItems(items: seq<Item>, text: string, rest: seq<Item>)
    requires |items| == |text| > 0 && !Opens(rest)
    requires forall i :: 0 <= i < |text| ==> items[i] == Bare(text[i])
    ensures RenderAll(items) == text
    ensures Words(items + rest) == [text] + Words(rest)
    decreases |text|
  {
    assert (items + rest)[1..] == items[1..] + rest;
    if |text| == 1 {
      assert items[1..] + rest == rest;
      assert items[1..] == [];
      assert text == [text[0]];
    } else {
      BareItems(items[1..], text[1..], rest);
      assert text == [text[0]] + text[1..];
    }
  }

  lemma ItemsOfQuoted(arg: string, rest: seq<Item>)
    requires !Safe(arg) && '"' !in arg && '\\' !in arg && !Opens(rest)
    ensures Valid([Double(arg)]) && RenderAll([Double(arg)]) == Part(arg)
    ensures Words([Double(arg)] + rest) == [arg] + Words(rest)
  {
    hide Safe;
    ReplaceNothing(arg, '\\', "\\\\");
    ReplaceNothing(arg, '"', "\\\"");
    var one := [Double(arg)];
    assert (one + rest)[0] == Double(arg) && (one + rest)[1..] == rest;
    assert one[1..] == [] && RenderAll(one) == Render(Double(arg)) + "";
  }

  lemma ItemsOf(arg: string, rest: seq<Item>)
    requires Plain(arg) && !Opens(rest)
    ensures Valid(Items(arg)) && RenderAll(Items(arg)) == Part(arg)
    ensures Words(Items(arg) + rest) == [arg] + Words(rest)
  {
    hide Words, RenderAll;
    if Safe(arg) {
      BareItems(Items(arg), arg, rest);
    } else {
      ItemsOfQuoted(arg, rest);
    }
  }

  lemma {:induction false} ItemsOfAll(cmd: seq<string>)
    requires forall i :: 0 <= i < |cmd| ==> Plain(cmd[i])
    ensures Valid(ItemsAll(cmd)) && RenderAll(ItemsAll(cmd)) == Format(cmd) && Words(ItemsAll(cmd)) == cmd
  {
    if cmd != [] {
      var tail := ItemsTail(cmd);
      assert Valid(tail) && RenderAll(tail) == Tail(cmd) && Words(tail) == cmd[1..] by {
        if |cmd| > 1 {
          ItemsOfAll(cmd[1..]);
          assert tail[1..] == ItemsAll(cmd[1..]);
        }
      }
      ItemsOf(cmd[0], tail);
      RenderAppend(Items(cmd[0]), tail);
      FormatHead(cmd);
    }
  }

  function Count(s: string, c: char): nat {
    if s == "" then 0 else (if s[0] == c then 1 else 0) + Count(s[1..], c)
  }

  function CountAll(words: seq<string>, c: char): nat {
    if words == [] then 0 else Count(words[0], c) + CountAll(words[1..], c)
  }

  lemma {:induction false} CountAppend(s: string, t: string, c: char)
    ensures Count(s + t, c) == Count(s, c) + Count(t, c)
  {
    if s == "" {
      assert s + t == t;
    } else {
      assert (s + t)[1..] == s[1..] + t;
      CountAppend(s[1..], t, c);
    }
  }

  lemma {:induction false} CountAllAppend(words: seq<string>, word: string, c: char)
    ensures CountAll(words + [word], c) == CountAll(words, c) + Count(word, c)
  {
    if words == [] {
      assert words + [word] == [word];
    } else {
      assert (words + [word])[1..] == words[1..] + [word];
      CountAllAppend(words[1..], word, c);
    }
  }

  /** Splitting neither drops nor adds a backslash. */
  lemma {:induction false} BackslashesKept(l: Lexer, s: string)
    requires l.started || l.cur == ""
    ensures var l' := LexedAll(l, s);
      && (l'.started || l'.cur == "")
      && CountAll(l'.tokens, '\\') + Count(l'.cur, '\\') == CountAll(l.tokens, '\\') + Count(l.cur, '\\') + Count(s, '\\')
    decreases |s|
  {
    if s != "" {
      CountAppend(l.cur, [s[0]], '\\');
      CountAllAppend(l.tokens, l.cur, '\\');
      BackslashesKept(Lexed(l, s[0]), s[1..]);
    }
  }

  lemma SplitKeepsBackslashes(s: string)
    requires Split(s).Some?
    ensures CountAll(Split(s).value, '\\') == Count(s, '\\')
  {
    BackslashesKept(FRESH, s);
    var l := LexedAll(FRESH, s);
    CountAllAppend(l.tokens, l.cur, '\\');
  }

  /** Replacing c by `with` changes the number of x by one, or not at all, for each c. */
  lemma {:induction false} CountReplaced(s: string, c: char, with: string, x: char, one: bool)
    requires Count(with, x) == Count([c], x) + if one then 1 else 0
    ensures Count(ReplaceAll(s, c, with), x) == Count(s, x) + if one then Count(s, c) else 0
  {
    if s != "" {
      CountReplaced(s[1..], c, with, x, one);
      CountAppend(if s[0] == c then with else [s[0]], ReplaceAll(s[1..], c, with), x);
    }
  }

  /** The backslashes that formatting an argument adds: one for each escaped character. */
  function Added(arg: string): nat {
    if Safe(arg) then 0 else Count(arg, '\\') + Count(arg, '"')
  }

  lemma PartBackslashes(arg: string)
    ensures Count(Part(arg), '\\') == Count(arg, '\\') + Added(arg)
  {
    if !Safe(arg) {
      var once := ReplaceAll(arg, '\\', "\\\\");
      var twice := ReplaceAll(once, '"', "\\\"");
      CountReplaced(arg, '\\', "\\\\", '\\', true);
      CountReplaced(arg, '\\', "\\\\", '"', false);
      CountReplaced(once, '"', "\\\"", '\\', true);
      CountAppend("\"", twice, '\\');
      CountAppend("\"" + twice, "\"", '\\');
    }
  }

  function AddedAll(cmd: seq<string>): nat {
    if cmd == [] then 0 else Added(cmd[0]) + AddedAll(cmd[1..])
  }

  lemma {:induction false} FormatBackslashes(cmd: seq<string>)
    ensures Count(Format(cmd), '\\') == CountAll(cmd, '\\') + AddedAll(cmd)
  {
    if cmd != [] {
      FormatHead(cmd);
      PartBackslashes(cmd[0]);
      CountAppend(Part(cmd[0]), Tail(cmd), '\\');
      if |cmd| > 1 {
        FormatBackslashes(cmd[1..]);
        CountAppend(" ", Format(cmd[1..]), '\\');
      }
    }
  }

  lemma {:induction false} CountZero(s: string, c: char)
    ensures Count(s, c) == 0 <==> c !in s
  {
    if s != "" {
      CountZero(s[1..], c);
      assert s == [s[0]] + s[1..];
    }
  }

  lemma {:induction false} NothingAdded(cmd: seq<string>)
    ensures AddedAll(cmd) == 0 <==> forall i :: 0 <= i < |cmd| ==> Plain(cmd[i])
  {
    if cmd != [] {
      NothingAdded(cmd[1..]);
      CountZero(cmd[0], '\\');
      CountZero(cmd[0], '"');
      assert (forall i :: 0 <= i < |cmd| ==> Plain(cmd[i])) <==>
             Plain(cmd[0]) && forall i :: 0 <= i < |cmd[1..]| ==> Plain(cmd[1..][i]) by {
        assert cmd == [cmd[0]] + cmd[1..];
        assert forall i :: 0 < i < |cmd| ==> cmd[i] == cmd[1..][i - 1];
      }
    }
  }

  /** shellSplit undoes FormatCommand exactly on the argument vectors in which no quoted argument
      holds a double quote or a backslash. */
  lemma RoundTripIff(cmd: seq<string>)
    ensures Split(Format(cmd)) == Some(cmd) <==> forall i :: 0 <= i < |cmd| ==> Plain(cmd[i])
  {
    if forall i :: 0 <= i < |cmd| ==> Plain(cmd[i]) {
      ItemsOfAll(cmd);
      SplitOfRendered(ItemsAll(cmd));
    } else {
      NothingAdded(cmd);
      FormatBackslashes(cmd);
      if Split(Format(cmd)) == Some(cmd) {
        SplitKeepsBackslashes(Format(cmd));
      }
    }
  }

  // ---------------------------------------------------------------- injectivity

  /** The argument before the closing quote, and what follows the quote. */
  function Unquote(s: string): (string, string)
    decreases |s|
  {
    if s == "" then ("", "")
    else if s[0] == '"' then ("", s[1..])
    else if s[0] == '\\' && |s| > 1 then var (arg, rest) := Unquote(s[2..]); ([s[1]] + arg, rest)
    else var (arg, rest) := Unquote(s[1..]); ([s[0]] + arg, rest)
  }

  /** Escaping goes character by character. */
  lemma EscapeHead(arg: string)
    requires arg != ""
    ensures Escape(arg) == (if arg[0] == '\\' || arg[0] == '"' then ['\\', arg[0]] else [arg[0]]) + Escape(arg[1..])
  {
    var once := ReplaceAll(arg[1..], '\\', "\\\\");
    if arg[0] == '\\' {
      var two, one, quote := "\\\\" + once, "\\" + once, "\\\"";
      assert two[1..] == one && one[1..] == once;
      assert ReplaceAll(one, '"', quote) == ['\\'] + ReplaceAll(once, '"', quote);
      assert ReplaceAll(two, '"', quote) == ['\\'] + ReplaceAll(one, '"', quote);
    } else {
      assert ([arg[0]] + once)[1..] == once;
    }
  }

  /** An argument is printed as it is exactly if it is not empty and has only letters, digits and these
      marks; otherwise between double quotes, with a backslash before each backslash and double quote. */
  lemma PartIs(arg: string)
    ensures if arg != "" && (forall i :: 0 <= i < |arg| ==>
                 || 'A' <= arg[i] <= 'Z' || 'a' <= arg[i] <= 'z' || '0' <= arg[i] <= '9'
                 || arg[i] in {'_', '.', '/', ':', '\\', '%', '(', ')', '+', ',', '=', '@', '-'})
            then Part(arg) == arg else Part(arg) == "\"" + Escape(arg) + "\""
    ensures arg == "" ==> Escape(arg) == ""
    ensures arg != "" ==>
      Escape(arg) == (if arg[0] == '\\' || arg[0] == '"' then ['\\', arg[0]] else [arg[0]]) + Escape(arg[1..])
  {
    if arg != "" {
      EscapeHead(arg);
    }
  }

  lemma {:induction false} UnquoteEscaped(arg: string, rest: string)
    ensures var (first, after) := Unquote(Escape(arg) + "\"" + rest); first == arg && after == rest
  {
    if arg == "" {
      assert Escape(arg) == "";
      var text := Escape(arg) + "\"" + rest;
      assert text == "\"" + rest && text[1..] == rest;
    } else {
      UnquoteEscaped(arg[1..], rest);
      EscapeHead(arg);
      var head := if arg[0] == '\\' || arg[0] == '"' then ['\\', arg[0]] else [arg[0]];
      var tail := Escape(arg[1..]) + "\"" + rest;
      assert Escape(arg) + "\"" + rest == head + tail;
      assert (head + tail)[|head|..] == tail;
      assert arg == [arg[0]] + arg[1..];
    }
  }

  /** The first argument of a formatted command, and what follows it. */
  function First(text: string): (string, string)
    requires text != ""
  {
    if text[0] == '"' then Unquote(text[1..]) else (text[..IndexOf(text, ' ')], text[IndexOf(text, ' ')..])
  }

  lemma FirstOfSafe(arg: string, rest: string)
    requires Safe(arg) && (rest == "" || rest[0] == ' ')
    ensures First(arg + rest) == (arg, rest)
  {
    var text := arg + rest;
    var i := IndexOf(text, ' ');
    assert i == |arg| by {
      assert forall j :: 0 <= j < |arg| ==> SafeChar(text[j]);
      assert rest != "" ==> text[|arg|] == ' ';
    }
    assert SafeChar(text[0]);
    assert text[..|arg|] == arg && text[|arg|..] == rest;
  }

  lemma FirstOfPart(arg: string, rest: string)
    requires rest == "" || rest[0] == ' '
    ensures Part(arg) != "" && First(Part(arg) + rest).0 == arg && First(Part(arg) + rest).1 == rest
  {
    hide First, Escape;
    if Safe(arg) {
      FirstOfSafe(arg, rest);
    } else {
      FirstOfQuoted(arg, rest);
    }
  }

  lemma FirstOfQuoted(arg: string, rest: string)
    ensures var text := "\"" + Escape(arg) + "\"" + rest; First(text).0 == arg && First(text).1 == rest
  {
    hide Unquote, Escape, Safe;
    var text := "\"" + Escape(arg) + "\"" + rest;
    assert text[1..] == Escape(arg) + "\"" + rest;
    UnquoteEscaped(arg, rest);
  }

  lemma FirstOfFormat(cmd: seq<string>)
    requires cmd != []
    ensures Format(cmd) != "" && First(Format(cmd)).0 == cmd[0] && First(Format(cmd)).1 == Tail(cmd)
  {
    FormatHead(cmd);
    FirstOfPart(cmd[0], Tail(cmd));
  }

  /** Two argument vectors with the same text are the same vector. */
  lemma {:induction false} FormatIsInjective(a: seq<string>, b: seq<string>)
    requires Format(a) == Format(b)
    ensures a == b
  {
    if a != [] {
      FirstOfFormat(a);
    }
    if b != [] {
      FirstOfFormat(b);
    }
    if a != [] && b != [] {
      if |a| > 1 && |b| > 1 {
        assert Tail(a)[1..] == Format(a[1..]) && Tail(b)[1..] == Format(b[1..]);
        FormatIsInjective(a[1..], b[1..]);
      }
      assert a == [a[0]] + a[1..] && b == [b[0]] + b[1..];
    }
  }
}
