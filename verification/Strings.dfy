// The string operations of the anonymiser: split, join, includes and toLowerCase.
module Strings {

  function LowerChar(c: char): char {
    if 'A' <= c <= 'Z' then c - 'A' + 'a' else c
  }

  // Lower case of the letters A to Z.
  function ToLower(s: string): (lower: string)
    ensures |lower| == |s|
  {
    seq(|s|, i requires 0 <= i < |s| => LowerChar(s[i]))
  }

  predicate Includes(s: string, part: string) {
    part <= s || (s != "" && Includes(s[1..], part))
  }

  // The pieces between separators; never empty, as splitting "" gives [""].
  function Split(s: string, separator: char): (parts: seq<string>)
    ensures parts != []
    ensures forall i | 0 <= i < |parts| :: separator !in parts[i]
  {
    if s == "" then [""]
    else
      var rest := Split(s[1..], separator);
      if s[0] == separator then [""] + rest else [[s[0]] + rest[0]] + rest[1..]
  }

  function Join(parts: seq<string>, separator: char): string {
    if parts == [] then ""
    else if |parts| == 1 then parts[0]
    else parts[0] + [separator] + Join(parts[1..], separator)
  }

  lemma {:induction false} SplitWhole(s: string, separator: char)
    requires separator !in s
    ensures Split(s, separator) == [s]
  {
    if s != "" {
      SplitWhole(s[1..], separator);
      assert [s[0]] + s[1..] == s;
    }
  }

  lemma {:induction false} SplitFirst(first: string, separator: char, rest: string)
    requires separator !in first
    ensures Split(first + [separator] + rest, separator) == [first] + Split(rest, separator)
  {
    var s := first + [separator] + rest;
    if first == "" {
      assert s[1..] == rest;
    } else {
      SplitFirst(first[1..], separator, rest);
      assert s[1..] == first[1..] + [separator] + rest;
      assert [s[0]] + first[1..] == first;
    }
  }

  lemma {:induction false} JoinOfSplit(s: string, separator: char)
    ensures Join(Split(s, separator), separator) == s
  {
    if s != "" {
      JoinOfSplit(s[1..], separator);
      var rest := Split(s[1..], separator);
      if s[0] == separator {
        assert ([""] + rest)[1..] == rest;
      } else {
        assert ([[s[0]] + rest[0]] + rest[1..])[1..] == rest[1..];
      }
    }
  }

  lemma {:induction false} SplitOfJoin(parts: seq<string>, separator: char)
    requires parts != [] && forall i | 0 <= i < |parts| :: separator !in parts[i]
    ensures Split(Join(parts, separator), separator) == parts
  {
    if |parts| == 1 {
      SplitWhole(parts[0], separator);
    } else {
      SplitOfJoin(parts[1..], separator);
      SplitFirst(parts[0], separator, Join(parts[1..], separator));
      assert parts == [parts[0]] + parts[1..];
    }
  }

  // What is left after the first piece is part of the string, so it brings in no new character.
  lemma {:induction false} JoinOnly(parts: seq<string>, separator: char, c: char)
    requires c != separator && forall i | 0 <= i < |parts| :: c !in parts[i]
    ensures c !in Join(parts, separator)
  {
    if |parts| > 1 {
      JoinOnly(parts[1..], separator, c);
    }
  }

  lemma {:induction false} SplitOnly(s: string, separator: char, c: char)
    requires c !in s
    ensures forall i | 0 <= i < |Split(s, separator)| :: c !in Split(s, separator)[i]
  {
    if s != "" {
      SplitOnly(s[1..], separator, c);
    }
  }
}
