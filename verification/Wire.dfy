/** Compact JSON as the service prints it, and what it measures on the wire.

    A byte of UTF-8 is written as the character of that number, so a text's
    length is its number of bytes. A status is itself JSON text inside a JSON
    reply, so each of its characters is escaped once more on the wire. */
module Wire {
  /** A string's characters, escaped as section 7 of RFC 8259 allows and the
      service's printer does: two bytes where there is a short escape, six for
      the other control characters, itself for everything else. */
  function EscapeChar(c: char): string {
    if c == '\"' then "\\\""
    else if c == '\\' then "\\\\"
    else if c == '\n' then "\\n"
    else if c == '\r' then "\\r"
    else if c == '\t' then "\\t"
    else if c as int == 8 then "\\b"
    else if c as int == 12 then "\\f"
    else if (c as int) < 16 then "\\u000" + [HexDigit(c as int)]
    else if (c as int) < 32 then "\\u001" + [HexDigit(c as int - 16)]
    else [c]
  }

  function HexDigit(n: int): char
    requires 0 <= n < 16
  {
    "0123456789abcdef"[n]
  }

  function Escape(s: string): string {
    if s == "" then "" else EscapeChar(s[0]) + Escape(s[1..])
  }

  /** The bytes `s` takes as a JSON string's contents, measured. */
  function EscapedLen(s: string): nat {
    if s == "" then 0 else CharLen(s[0]) + EscapedLen(s[1..])
  }

  function CharLen(c: char): nat {
    if c in "\"\\\n\r\t" || c as int == 8 || c as int == 12 then 2
    else if (c as int) < 32 then 6
    else 1
  }

  /** The measure is what escaping gives. */
  lemma {:induction false} EscapedLenIsExact(s: string)
    ensures EscapedLen(s) == |Escape(s)|
  {
    if s != "" {
      EscapedLenIsExact(s[1..]);
    }
  }

  lemma {:induction false} EscapedLenAdds(a: string, b: string)
    ensures EscapedLen(a + b) == EscapedLen(a) + EscapedLen(b)
  {
    if a == "" {
      assert a + b == b;
    } else {
      EscapedLenAdds(a[1..], b);
      assert (a + b)[1..] == a[1..] + b;
    }
  }

  lemma EscapedLenAdds3(a: string, b: string, c: string)
    ensures EscapedLen(a + b + c) == EscapedLen(a) + EscapedLen(b) + EscapedLen(c)
  {
    EscapedLenAdds(a + b, c);
    EscapedLenAdds(a, b);
  }

  // ---- Values and their text ----

  datatype Json =
    | Null
    | Bool(value: bool)
    | Num(n: nat)
    | Str(text: string)
    | Arr(items: seq<Json>)
    | Obj(fields: seq<Field>)

  /** Keys are the service's own field names: nothing in them needs escaping. */
  datatype Field = Field(key: string, value: Json)

  function Digits(n: nat): string {
    if n < 10 then [Digit(n)] else Digits(n / 10) + [Digit(n % 10)]
  }

  function Digit(n: nat): char
    requires n < 10
  {
    "0123456789"[n]
  }

  /** How many characters `count` takes written in decimal. */
  function DecimalDigits(count: nat): nat {
    if count < 10 then 1 else DecimalDigits(count / 10) + 1
  }

  function Print(j: Json): string {
    match j
    case Null => "null"
    case Bool(value) => if value then "true" else "false"
    case Num(n) => Digits(n)
    case Str(text) => "\"" + Escape(text) + "\""
    case Arr(items) => "[" + PrintItems(items) + "]"
    case Obj(fields) => "{" + PrintFields(fields) + "}"
  }

  function PrintItems(items: seq<Json>): string {
    if items == [] then ""
    else if |items| == 1 then Print(items[0])
    else Print(items[0]) + "," + PrintItems(items[1..])
  }

  function PrintFields(fields: seq<Field>): string {
    if fields == [] then ""
    else if |fields| == 1 then PrintField(fields[0])
    else PrintField(fields[0]) + "," + PrintFields(fields[1..])
  }

  function PrintField(field: Field): string {
    "\"" + field.key + "\":" + Print(field.value)
  }

  // ---- The reply on the wire ----

  const MAX_RESPONSE_BYTES := 1_048_576
  const ENVELOPE := 25

  function Reply(message: string): Json {
    Obj([Field("ok", Bool(true)), Field("message", Str(message))])
  }

  /** The bytes a successful reply takes: its JSON and a newline. */
  function Encoded(message: string): string {
    Print(Reply(message)) + "\n"
  }

  /** `success_len`: measured without encoding. */
  function SuccessLen(message: string): nat {
    ENVELOPE + EscapedLen(message)
  }

  lemma SuccessLenIsExact(message: string)
    ensures SuccessLen(message) == |Encoded(message)|
  {
    EscapedLenIsExact(message);
    var fields := [Field("ok", Bool(true)), Field("message", Str(message))];
    assert fields[1..] == [Field("message", Str(message))];
    assert PrintFields(fields) == PrintField(fields[0]) + "," + PrintField(fields[1]);
    assert PrintField(fields[0]) == "\"ok\":true";
    assert PrintField(fields[1]) == "\"message\":" + ("\"" + Escape(message) + "\"");
  }

  predicate SuccessFits(message: string) {
    SuccessLen(message) <= MAX_RESPONSE_BYTES
  }

  // ---- Measures of values ----

  /** What `value`'s compact JSON takes on the wire inside the message. */
  function WireLen(value: Json): nat {
    EscapedLen(Print(value))
  }

  /** `"key":value` on the wire. */
  function FieldLen(field: Field): nat {
    EscapedLen("\"" + field.key + "\":") + WireLen(field.value)
  }

  /** The fields and a comma after each. */
  function FieldsLen(fields: seq<Field>): nat {
    if fields == [] then 0 else FieldLen(fields[0]) + 1 + FieldsLen(fields[1..])
  }

  /** The items and a comma after each. */
  function ItemsLen(items: seq<Json>): nat {
    if items == [] then 0 else WireLen(items[0]) + 1 + ItemsLen(items[1..])
  }

  /** `,"key":value` on the wire: what leaving out a field saves that is not
      the first of its object. */
  function AbsentLen(key: string, value: string): nat {
    EscapedLen(",\"" + key + "\":" + value)
  }

  lemma AbsentLenIsFieldLen(key: string, value: Json)
    ensures AbsentLen(key, Print(value)) == FieldLen(Field(key, value)) + 1
  {
    var text := "\"" + key + "\":";
    assert ",\"" + key + "\":" + Print(value) == "," + (text + Print(value));
    EscapedLenAdds(",", text + Print(value));
    EscapedLenAdds(text, Print(value));
    assert EscapedLen(",") == 1;
  }

  lemma FieldLenIsExact(field: Field)
    ensures EscapedLen(PrintField(field)) == FieldLen(field)
  {
    EscapedLenAdds("\"" + field.key + "\":", Print(field.value));
  }

  lemma {:induction false} FieldsMeasured(fields: seq<Field>)
    requires fields != []
    ensures EscapedLen(PrintFields(fields)) + 1 == FieldsLen(fields)
  {
    FieldLenIsExact(fields[0]);
    if |fields| > 1 {
      FieldsMeasured(fields[1..]);
      EscapedLenAdds3(PrintField(fields[0]), ",", PrintFields(fields[1..]));
      assert EscapedLen(",") == 1;
    }
  }

  lemma {:induction false} ItemsMeasured(items: seq<Json>)
    requires items != []
    ensures EscapedLen(PrintItems(items)) + 1 == ItemsLen(items)
  {
    if |items| > 1 {
      ItemsMeasured(items[1..]);
      EscapedLenAdds3(Print(items[0]), ",", PrintItems(items[1..]));
      assert EscapedLen(",") == 1;
    }
  }

  lemma ObjectMeasured(fields: seq<Field>)
    requires fields != []
    ensures WireLen(Obj(fields)) == 1 + FieldsLen(fields)
  {
    FieldsMeasured(fields);
    EscapedLenAdds3("{", PrintFields(fields), "}");
    assert EscapedLen("{") == 1 && EscapedLen("}") == 1;
  }

  lemma ArrayMeasured(items: seq<Json>)
    ensures WireLen(Arr(items)) == if items == [] then 2 else 1 + ItemsLen(items)
  {
    EscapedLenAdds3("[", PrintItems(items), "]");
    assert EscapedLen("[") == 1 && EscapedLen("]") == 1;
    if items != [] {
      ItemsMeasured(items);
    }
  }

  lemma {:induction false} FieldsLenAdds(a: seq<Field>, b: seq<Field>)
    ensures FieldsLen(a + b) == FieldsLen(a) + FieldsLen(b)
  {
    hide FieldLen, WireLen;
    if a == [] {
      assert a + b == b;
    } else {
      FieldsLenAdds(a[1..], b);
      assert (a + b)[1..] == a[1..] + b;
    }
  }

  lemma {:induction false} ItemsLenAdds(a: seq<Json>, b: seq<Json>)
    ensures ItemsLen(a + b) == ItemsLen(a) + ItemsLen(b)
  {
    hide FieldLen, WireLen;
    if a == [] {
      assert a + b == b;
    } else {
      ItemsLenAdds(a[1..], b);
      assert (a + b)[1..] == a[1..] + b;
    }
  }

  lemma DigitMeasured(n: nat)
    requires n < 10
    ensures EscapedLen([Digit(n)]) == 1
  {
    assert [Digit(n)][1..] == "";
  }

  lemma {:induction false} DigitsMeasured(n: nat)
    ensures |Digits(n)| == DecimalDigits(n) == EscapedLen(Digits(n))
    ensures WireLen(Num(n)) == DecimalDigits(n)
  {
    DigitMeasured(n % 10);
    if n >= 10 {
      DigitsMeasured(n / 10);
      EscapedLenAdds(Digits(n / 10), [Digit(n % 10)]);
    }
  }

  lemma {:induction false} FewerDigits(a: nat, b: nat)
    requires a <= b
    ensures DecimalDigits(a) <= DecimalDigits(b)
  {
    if b >= 10 && a >= 10 {
      FewerDigits(a / 10, b / 10);
    }
  }

  lemma StringMeasured(text: string)
    ensures WireLen(Str(text)) == 4 + EscapedLen(Escape(text))
  {
    EscapedLenAdds3("\"", Escape(text), "\"");
    assert EscapedLen("\"") == 2;
  }

  lemma LiteralsMeasured()
    ensures WireLen(Null) == 4 && WireLen(Str("")) == 4 && WireLen(Arr([])) == 2
  {
    StringMeasured("");
    ArrayMeasured([]);
    EscapedLenAdds3("n", "u", "ll");
    EscapedLenAdds("l", "l");
    assert "null" == "n" + "u" + "ll" && "ll" == "l" + "l";
    assert EscapedLen("n") == EscapedLen("u") == EscapedLen("l") == 1;
  }

  lemma {:induction false} EscapedIsNoShorter(s: string)
    ensures |s| <= EscapedLen(s)
  {
    if s != "" {
      EscapedIsNoShorter(s[1..]);
    }
  }
}
