/** Splitting at a separator and joining again, as strings.Split and strings.Join do. */
module Splitting {

  function Split<T(==)>(s: seq<T>, separator: T): (parts: seq<seq<T>>)
    ensures parts != []
    ensures forall i :: 0 <= i < |parts| ==> separator !in parts[i]
  {
    if s == [] then [[]]
    else
      var rest := Split(s[1..], separator);
      if s[0] == separator then [[]] + rest else [[s[0]] + rest[0]] + rest[1..]
  }

  function Join<T>(parts: seq<seq<T>>, separator: T): seq<T> {
    if parts == [] then []
    else if |parts| == 1 then parts[0]
    else parts[0] + [separator] + Join(parts[1..], separator)
  }

  /** What stands before a separator is a part of its own. */
  lemma {:induction false} SplitFirst<T>(part: seq<T>, rest: seq<T>, separator: T)
    requires separator !in part
    ensures Split(part + [separator] + rest, separator) == [part] + Split(rest, separator)
  {
    var s := part + [separator] + rest;
    if part == [] {
      assert s[1..] == rest;
    } else {
      SplitFirst(part[1..], rest, separator);
      assert s[1..] == part[1..] + [separator] + rest;
      assert [part[0]] + part[1..] == part;
    }
  }

  lemma {:induction false} SplitWhole<T>(part: seq<T>, separator: T)
    requires separator !in part
    ensures Split(part, separator) == [part]
  {
    if part != [] {
      SplitWhole(part[1..], separator);
      assert [part[0]] + part[1..] == part;
    }
  }

  /** Splitting undoes joining. */
  lemma {:induction false} SplitJoin<T>(parts: seq<seq<T>>, separator: T)
    requires parts != [] && forall i :: 0 <= i < |parts| ==> separator !in parts[i]
    ensures Split(Join(parts, separator), separator) == parts
  {
    if |parts| == 1 {
      SplitWhole(parts[0], separator);
    } else {
      SplitJoin(parts[1..], separator);
      SplitFirst(parts[0], Join(parts[1..], separator), separator);
      assert [parts[0]] + parts[1..] == parts;
    }
  }

  lemma {:induction false} JoinSplit<T>(s: seq<T>, separator: T)
    ensures Join(Split(s, separator), separator) == s
  {
    if s != [] {
      var rest := Split(s[1..], separator);
      JoinSplit(s[1..], separator);
      if s[0] == separator {
        assert ([[]] + rest)[1..] == rest;
      } else {
        assert ([[s[0]] + rest[0]] + rest[1..])[1..] == rest[1..];
      }
    }
  }
}
