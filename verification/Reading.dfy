/** Reading JSON back: what is printed is what is read. */
module Reading {
  import opened Common
  import opened Wire
  import opened Status

  // ---- Texts ----

  predicate IsHex(c: char) {
    '0' <= c <= '9' || 'a' <= c <= 'f'
  }

  function HexValue(c: char): (n: nat)
    requires IsHex(c)
    ensures n < 16
  {
    if '0' <= c <= '9' then (c - '0') as int else (c - 'a') as int + 10
  }

  /** The character a short escape stands for. */
  function Short(c: char): Option<char> {
    if c == '\"' || c == '\\' then Some(c)
    else if c == 'n' then Some('\n')
    else if c == 'r' then Some('\r')
    else if c == 't' then Some('\t')
    else if c == 'b' then Some(8 as char)
    else if c == 'f' then Some(12 as char)
    else None
  }

  /** One character of a text, and what follows it. */
  function ReadChar(s: string): (r: Option<(char, string)>)
    ensures r.Some? ==> |r.value.1| < |s|
  {
    if s == "" || s[0] == '\"' then None
    else if s[0] != '\\' then Some((s[0], s[1..]))
    else if |s| < 2 then None
    else if s[1] == 'u' then
      if |s| >= 6 && s[2] == '0' && s[3] == '0' && IsHex(s[4]) && IsHex(s[5])
      then Some(((16 * HexValue(s[4]) + HexValue(s[5])) as char, s[6..]))
      else None
    else if Short(s[1]).Some? then Some((Short(s[1]).value, s[2..]))
    else None
  }

  /** A text up to its closing quote, and what follows that. */
  function ReadText(s: string): (r: Option<(string, string)>)
    ensures r.Some? ==> |r.value.1| < |s|
    decreases |s|
  {
    if s != "" && s[0] == '\"' then Some(("", s[1..]))
    else
      var first := ReadChar(s);
      if first.None? then None
      else
        var rest := ReadText(first.value.1);
        if rest.None? then None else Some(([first.value.0] + rest.value.0, rest.value.1))
  }

  lemma CharReads(c: char, rest: string)
    ensures ReadChar(EscapeChar(c) + rest) == Some((c, rest))
    ensures EscapeChar(c) != "" && EscapeChar(c)[0] != '\"'
  {
    var s := EscapeChar(c) + rest;
    assert s[|EscapeChar(c)|..] == rest;
  }

  lemma {:induction false} TextReads(s: string, rest: string)
    ensures ReadText(Escape(s) + "\"" + rest) == Some((s, rest))
  {
    hide ReadChar, EscapeChar;
    var all := Escape(s) + "\"" + rest;
    if s == "" {
      assert all == "\"" + rest;
      assert all[1..] == rest;
    } else {
      var after := Escape(s[1..]) + "\"" + rest;
      assert all == EscapeChar(s[0]) + after;
      CharReads(s[0], after);
      TextReads(s[1..], rest);
      assert all[0] == EscapeChar(s[0])[0];
      assert s == [s[0]] + s[1..];
    }
  }

  // ---- Numbers ----

  predicate IsDigit(c: char) {
    '0' <= c <= '9'
  }

  function ReadNumber(s: string, so: nat): (nat, string)
    decreases |s|
  {
    if s == "" || !IsDigit(s[0]) then (so, s) else ReadNumber(s[1..], 10 * so + (s[0] - '0') as int)
  }

  lemma NumberIsNoLonger(s: string, so: nat)
    ensures |ReadNumber(s, so).1| <= |s|
    decreases |s|
  {
    if s != "" && IsDigit(s[0]) {
      NumberIsNoLonger(s[1..], 10 * so + (s[0] - '0') as int);
    }
  }

  lemma DigitReads(n: nat, so: nat, rest: string)
    requires n < 10
    ensures ReadNumber([Digit(n)] + rest, so) == ReadNumber(rest, 10 * so + n)
  {
    assert ([Digit(n)] + rest)[1..] == rest;
    assert (Digit(n) - '0') as int == n;
  }

  lemma {:induction false} NumberReads(n: nat, rest: string)
    ensures ReadNumber(Digits(n) + rest, 0) == ReadNumber(rest, n)
    ensures Digits(n) != "" && IsDigit(Digits(n)[0])
  {
    hide ReadNumber;
    if n < 10 {
      DigitReads(n, 0, rest);
    } else {
      var more := [Digit(n % 10)] + rest;
      NumberReads(n / 10, more);
      DigitReads(n % 10, n / 10, rest);
      assert Digits(n) + rest == Digits(n / 10) + more;
    }
  }

  // ---- Values ----

  function After(s: string, word: string): Option<string> {
    if |word| <= |s| && s[..|word|] == word then Some(s[|word|..]) else None
  }

  /** One value, and what follows it. */
  function ReadValue(s: string): (r: Option<(Json, string)>)
    ensures r.Some? ==> |r.value.1| < |s|
    decreases |s|, 0
  {
    if s == "" then None
    else if After(s, "null").Some? then Some((Null, After(s, "null").value))
    else if After(s, "true").Some? then Some((Bool(true), After(s, "true").value))
    else if After(s, "false").Some? then Some((Bool(false), After(s, "false").value))
    else if IsDigit(s[0]) then
      NumberIsNoLonger(s[1..], (s[0] - '0') as int);
      var (n, rest) := ReadNumber(s, 0);
      Some((Num(n), rest))
    else if s[0] == '\"' then
      var text := ReadText(s[1..]);
      if text.None? then None else Some((Str(text.value.0), text.value.1))
    else if s[0] == '[' then
      if |s| > 1 && s[1] == ']' then Some((Arr([]), s[2..]))
      else
        var items := ReadItems(s[1..]);
        if items.None? then None else Some((Arr(items.value.0), items.value.1))
    else if s[0] == '{' then
      if |s| > 1 && s[1] == '}' then Some((Obj([]), s[2..]))
      else
        var fields := ReadFields(s[1..]);
        if fields.None? then None else Some((Obj(fields.value.0), fields.value.1))
    else None
  }

  function ReadItems(s: string): (r: Option<(seq<Json>, string)>)
    ensures r.Some? ==> |r.value.1| < |s|
    decreases |s|, 1
  {
    var first := ReadValue(s);
    if first.None? || first.value.1 == "" then None
    else if first.value.1[0] == ']' then Some(([first.value.0], first.value.1[1..]))
    else if first.value.1[0] == ',' then
      var rest := ReadItems(first.value.1[1..]);
      if rest.None? then None else Some(([first.value.0] + rest.value.0, rest.value.1))
    else None
  }

  function ReadField(s: string): (r: Option<(Field, string)>)
    ensures r.Some? ==> |r.value.1| < |s|
    decreases |s|, 1
  {
    if s == "" || s[0] != '\"' then None
    else
      var key := ReadText(s[1..]);
      if key.None? || key.value.1 == "" || key.value.1[0] != ':' then None
      else
        var value := ReadValue(key.value.1[1..]);
        if value.None? then None else Some((Field(key.value.0, value.value.0), value.value.1))
  }

  function ReadFields(s: string): (r: Option<(seq<Field>, string)>)
    ensures r.Some? ==> |r.value.1| < |s|
    decreases |s|, 2
  {
    var first := ReadField(s);
    if first.None? || first.value.1 == "" then None
    else if first.value.1[0] == '}' then Some(([first.value.0], first.value.1[1..]))
    else if first.value.1[0] == ',' then
      var rest := ReadFields(first.value.1[1..]);
      if rest.None? then None else Some(([first.value.0] + rest.value.0, rest.value.1))
    else None
  }

  /** Every key is one that needs no escaping. */
  predicate Plain(j: Json) {
    match j
    case Arr(items) => forall i :: 0 <= i < |items| ==> Plain(items[i])
    case Obj(fields) => forall i :: 0 <= i < |fields| ==> PlainKey(fields[i].key) && Plain(fields[i].value)
    case _ => true
  }

  predicate PlainKey(key: string) {
    Escape(key) == key
  }

  /** No digit follows, so a number ends. */
  predicate Ends(rest: string) {
    rest == "" || !IsDigit(rest[0])
  }

  lemma PrintBegins(j: Json)
    ensures Print(j) != ""
    ensures match j
            case Null => Print(j) == "null"
            case Bool(value) => Print(j) == if value then "true" else "false"
            case Num(_) => IsDigit(Print(j)[0])
            case Str(_) => Print(j)[0] == '\"'
            case Arr(_) => Print(j)[0] == '['
            case Obj(_) => Print(j)[0] == '{'
    ensures Print(j)[0] != ']' && Print(j)[0] != '}'
  {
    if j.Num? {
      NumberReads(j.n, "");
    }
  }

  lemma NoWord(s: string)
    ensures s != "" && s[0] != 'n' ==> After(s, "null").None?
    ensures s != "" && s[0] != 't' ==> After(s, "true").None?
    ensures s != "" && s[0] != 'f' ==> After(s, "false").None?
  {
    assert s != "" && After(s, "null").Some? ==> s[..4][0] == s[0];
    assert s != "" && After(s, "true").Some? ==> s[..4][0] == s[0];
    assert s != "" && After(s, "false").Some? ==> s[..5][0] == s[0];
  }

  /** What is printed is read as it was, whatever follows. */
  lemma {:induction false} ValueReads(j: Json, rest: string)
    requires Plain(j) && Ends(rest)
    ensures ReadValue(Print(j) + rest) == Some((j, rest))
    decreases j, 0
  {
    hide ReadText, ReadNumber, ReadItems, ReadFields, Escape, Digits, PrintItems, PrintFields;
    var s := Print(j) + rest;
    PrintBegins(j);
    NoWord(s);
    assert s[0] == Print(j)[0];
    match j
    case Null =>
      assert s[..4] == "null" && s[4..] == rest;
    case Bool(value) =>
      if value {
        assert s[..4] == "true" && s[4..] == rest;
      } else {
        assert s[..5] == "false" && s[5..] == rest;
      }
    case Num(n) =>
      NumberReads(n, rest);
      NumberEnds(rest, n);
    case Str(text) =>
      TextReads(text, rest);
      assert s[1..] == Escape(text) + "\"" + rest;
    case Arr(items) =>
      if items == [] {
        NoItems();
        assert s == "[]" + rest && s[2..] == rest;
      } else {
        ItemsRead(items, rest);
        assert s[1..] == PrintItems(items) + "]" + rest;
        ItemsBegin(items);
        assert s[1] == PrintItems(items)[0];
      }
    case Obj(fields) =>
      if fields == [] {
        NoItems();
        assert s == "{}" + rest && s[2..] == rest;
      } else {
        FieldsRead(fields, rest);
        assert s[1..] == PrintFields(fields) + "}" + rest;
        FieldsBegin(fields);
        assert s[1] == PrintFields(fields)[0];
      }
  }

  lemma NoItems()
    ensures PrintItems([]) == "" && PrintFields([]) == ""
  {
  }

  lemma NumberEnds(rest: string, n: nat)
    requires Ends(rest)
    ensures ReadNumber(rest, n) == (n, rest)
  {
  }

  lemma ItemsBegin(items: seq<Json>)
    requires items != []
    ensures PrintItems(items) != "" && PrintItems(items)[0] != ']'
  {
    hide Print;
    PrintBegins(items[0]);
  }

  lemma FieldsBegin(fields: seq<Field>)
    requires fields != []
    ensures PrintFields(fields) != "" && PrintFields(fields)[0] == '\"'
  {
    hide Print;
  }

  lemma {:induction false} ItemsRead(items: seq<Json>, rest: string)
    requires items != [] && forall i :: 0 <= i < |items| ==> Plain(items[i])
    ensures ReadItems(PrintItems(items) + "]" + rest) == Some((items, rest))
    decreases items, 1
  {
    hide ReadValue, Print, Plain;
    var s := PrintItems(items) + "]" + rest;
    if |items| == 1 {
      var after := "]" + rest;
      ValueReads(items[0], after);
      assert s == Print(items[0]) + after;
      assert after[1..] == rest && items == [items[0]];
    } else {
      var more := PrintItems(items[1..]) + "]" + rest;
      var after := "," + more;
      ValueReads(items[0], after);
      ItemsRead(items[1..], rest);
      assert s == Print(items[0]) + after;
      assert after[1..] == more && items == [items[0]] + items[1..];
    }
  }

  lemma {:induction false} FieldReads(field: Field, rest: string)
    requires PlainKey(field.key) && Plain(field.value) && Ends(rest)
    ensures ReadField(PrintField(field) + rest) == Some((field, rest))
    decreases field, 1
  {
    hide ReadValue, Print, Plain, ReadText, Escape;
    var s := PrintField(field) + rest;
    var value := Print(field.value) + rest;
    TextReads(field.key, ":" + value);
    assert s[1..] == field.key + "\"" + (":" + value);
    assert (":" + value)[1..] == value;
    ValueReads(field.value, rest);
  }

  lemma {:induction false} FieldsRead(fields: seq<Field>, rest: string)
    requires fields != [] && forall i :: 0 <= i < |fields| ==> PlainKey(fields[i].key) && Plain(fields[i].value)
    ensures ReadFields(PrintFields(fields) + "}" + rest) == Some((fields, rest))
    decreases fields, 2
  {
    hide ReadField, PrintField, Plain, PlainKey;
    var s := PrintFields(fields) + "}" + rest;
    if |fields| == 1 {
      var after := "}" + rest;
      FieldReads(fields[0], after);
      assert s == PrintField(fields[0]) + after;
      assert after[1..] == rest && fields == [fields[0]];
    } else {
      var more := PrintFields(fields[1..]) + "}" + rest;
      var after := "," + more;
      FieldReads(fields[0], after);
      FieldsRead(fields[1..], rest);
      assert s == PrintField(fields[0]) + after;
      assert after[1..] == more && fields == [fields[0]] + fields[1..];
    }
  }

  // ---- A reply ----

  /** What a client takes from the line of a reply: its message. */
  function Message(line: string): Option<string> {
    var reply := ReadValue(line);
    match reply
    case Some((Obj(fields), "\n")) =>
      if |fields| == 2 && fields[0] == Field("ok", Bool(true)) && fields[1].key == "message" && fields[1].value.Str?
      then Some(fields[1].value.text) else None
    case _ => None
  }

  /** A client reads the very message. */
  lemma ReplyReads(message: string)
    ensures Message(Encoded(message)) == Some(message)
  {
    hide ReadValue, Print;
    var reply := Reply(message);
    PlainReply(message);
    ValueReads(reply, "\n");
  }

  lemma PlainReply(message: string)
    ensures Plain(Reply(message))
  {
    PlainWord("ok");
    PlainWord("message");
  }

  predicate IsPlain(c: char) {
    'a' <= c <= 'z' || c == '_'
  }

  lemma {:induction false} PlainWord(word: string)
    requires forall i :: 0 <= i < |word| ==> IsPlain(word[i])
    ensures PlainKey(word)
  {
    if word != "" {
      PlainWord(word[1..]);
      assert IsPlain(word[0]);
      assert word == [word[0]] + word[1..];
    }
  }

  /** From a status' reply a client reads its text, and from that its fields. */
  lemma StatusReads(m: Moment, shape: Shape)
    requires Plain(Obj(StatusFields(m, shape)))
    ensures Message(Encoded(StatusJson(m, shape))) == Some(StatusJson(m, shape))
    ensures ReadValue(StatusJson(m, shape)) == Some((Obj(StatusFields(m, shape)), ""))
  {
    hide ReadValue, Print, Plain, StatusFields, Message;
    ReplyReads(StatusJson(m, shape));
    ValueReads(Obj(StatusFields(m, shape)), "");
    assert StatusJson(m, shape) + "" == StatusJson(m, shape);
  }
}
