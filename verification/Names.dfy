/** Names as they are given, and in order: code point by code point. */
module Names {
  predicate Less(a: string, b: string) {
    b != [] && (a == [] || a[0] < b[0] || (a[0] == b[0] && Less(a[1..], b[1..])))
  }

  predicate IsSpace(c: char) {
    c == ' ' || '\t' <= c <= '\r'
  }

  function Trim(s: string): string {
    if s != [] && IsSpace(s[0]) then Trim(s[1..])
    else if s != [] && IsSpace(s[|s| - 1]) then Trim(s[..|s| - 1])
    else s
  }

  ghost predicate AllSpace(s: string) {
    forall c :: c in s ==> IsSpace(c)
  }

  /** What is trimmed is the space around what begins and ends with none. */
  lemma {:induction false} TrimIs(s: string) returns (before: string, after: string)
    ensures s == before + Trim(s) + after && AllSpace(before) && AllSpace(after)
    ensures Trim(s) != [] ==> !IsSpace(Trim(s)[0]) && !IsSpace(Trim(s)[|Trim(s)| - 1])
  {
    before, after := [], [];
    if s != [] && IsSpace(s[0]) {
      before, after := TrimIs(s[1..]);
      before := [s[0]] + before;
    } else if s != [] && IsSpace(s[|s| - 1]) {
      before, after := TrimIs(s[..|s| - 1]);
      assert s == s[..|s| - 1] + [s[|s| - 1]];
      after := after + [s[|s| - 1]];
    }
  }

  /** Each name once, in order. */
  predicate Sorted(names: seq<string>) {
    forall i, j :: 0 <= i < j < |names| ==> Less(names[i], names[j])
  }

  lemma {:induction false} LessIsTotal(a: string, b: string)
    ensures Less(a, b) || a == b || Less(b, a)
    ensures !(Less(a, b) && Less(b, a)) && !Less(a, a)
    decreases |a| + |b|
  {
    if a != [] && b != [] {
      LessIsTotal(a[1..], b[1..]);
      assert a == [a[0]] + a[1..] && b == [b[0]] + b[1..];
    }
    NotBeforeItself(a);
  }

  lemma {:induction false} NotBeforeItself(a: string)
    ensures !Less(a, a)
  {
    if a != [] {
      NotBeforeItself(a[1..]);
    }
  }

  lemma {:induction false} LessIsTransitive(a: string, b: string, c: string)
    requires Less(a, b) && Less(b, c)
    ensures Less(a, c)
    decreases |a|
  {
    if a != [] && a[0] == b[0] && b[0] == c[0] {
      LessIsTransitive(a[1..], b[1..], c[1..]);
    }
  }

  /** `name` put in its place, once. */
  function Insert(names: seq<string>, name: string): (r: seq<string>)
    requires Sorted(names)
    ensures Sorted(r)
    ensures forall n :: n in r <==> n == name || n in names
    ensures |r| <= |names| + 1
  {
    if names == [] then [name]
    else
      LessIsTotal(name, names[0]);
      if name == names[0] then names
      else if Less(name, names[0]) then
        assert forall j :: 0 <= j < |names| ==> Less(name, names[j]) by {
          forall j | 0 <= j < |names|
            ensures Less(name, names[j])
          {
            if j > 0 {
              LessIsTransitive(name, names[0], names[j]);
            }
          }
        }
        [name] + names
      else
        var rest := Insert(names[1..], name);
        assert forall n :: n in names <==> n == names[0] || n in names[1..];
        InFront(names[0], name, names[1..], rest);
        [names[0]] + rest
  }

  lemma InFront(head: string, name: string, tail: seq<string>, rest: seq<string>)
    requires Sorted(rest) && Less(head, name) && (forall n :: n in tail ==> Less(head, n))
    requires forall n :: n in rest ==> n == name || n in tail
    ensures Sorted([head] + rest)
  {
    forall i | 0 <= i < |rest|
      ensures Less(head, rest[i])
    {
      assert rest[i] in rest;
    }
  }

  /** All of them, each once, in order. */
  function SortedOf(names: seq<string>): (r: seq<string>)
    ensures Sorted(r)
    ensures forall n :: n in r <==> n in names
    ensures |r| <= |names|
  {
    if names == [] then []
    else
      assert forall n :: n in names <==> n == names[0] || n in names[1..];
      Insert(SortedOf(names[1..]), names[0])
  }

  lemma {:induction false} SizeOfSorted(names: seq<string>)
    requires Sorted(names)
    ensures |set n | n in names| == |names|
  {
    if names != [] {
      SizeOfSorted(names[1..]);
      LessIsTotal(names[0], names[0]);
      assert names[0] !in names[1..];
      assert (set n | n in names) == {names[0]} + set n | n in names[1..];
    }
  }
}
