/** The exceptions the service layer raises or lets through, and
    ExceptionUtils.buildMessage, which turns one into the text shown to a caller. */
module Errors {
  import opened Wrappers

  /** The separator buildMessage puts between violation messages. */
  const SEPARATOR: char := ';'

  /** The text buildMessage gives when there is no exception object at all. */
  const FALLBACK_MESSAGE: string := "系统开小差了"

  /** One failed bean-validation constraint, reduced to its interpolated message. */
  datatype ConstraintViolation = ConstraintViolation(message: string)

  /** The exception kinds the model distinguishes; `message` is Throwable.getMessage(),
      which may be null. */
  datatype Exception =
    | ConstraintViolationException(violations: seq<ConstraintViolation>)
    | IllegalStateException(message: Option<string>)
    | IllegalArgumentException(message: Option<string>)
    | DuplicateKeyException(message: Option<string>)
    | OtherException(message: Option<string>)

  /** The messages of `vs`, in iteration order (`.map(ConstraintViolation::getMessage)`). */
  function Messages(vs: seq<ConstraintViolation>): (ms: seq<string>)
    ensures |ms| == |vs|
    ensures forall i :: 0 <= i < |vs| ==> ms[i] == vs[i].message
  {
    if vs == [] then [] else [vs[0].message] + Messages(vs[1..])
  }

  /** Total number of characters in `parts`. */
  function TotalLength(parts: seq<string>): nat {
    if parts == [] then 0 else |parts[0]| + TotalLength(parts[1..])
  }

  /** `Collectors.joining(sep)`: the parts in order with one `sep` between neighbours,
      so the text is exactly one character longer per neighbouring pair. */
  function Join(parts: seq<string>, sep: char): (r: string)
    ensures |parts| > 0 ==> |r| == TotalLength(parts) + |parts| - 1
    ensures |parts| == 0 ==> r == ""
  {
    if |parts| == 0 then ""
    else if |parts| == 1 then parts[0]
    else parts[0] + [sep] + Join(parts[1..], sep)
  }

  /** The joined text starts with the first part and ends with the last. */
  lemma {:induction false} JoinEnds(parts: seq<string>, sep: char)
    requires |parts| > 0
    ensures parts[0] <= Join(parts, sep)
    ensures var r, last := Join(parts, sep), parts[|parts| - 1];
      |last| <= |r| && r[|r| - |last|..] == last
  {
    if |parts| > 1 {
      var j := Join(parts[1..], sep);
      JoinEnds(parts[1..], sep);
      var r := parts[0] + [sep] + j;
      assert Join(parts, sep) == r;
      assert r[..|parts[0]|] == parts[0];
      var last := parts[|parts| - 1];
      assert r[|r| - |last|..] == j[|j| - |last|..];
    }
  }

  /** Number of occurrences of `c` in `s`. */
  function Count(s: string, c: char): nat {
    if s == [] then 0 else (if s[0] == c then 1 else 0) + Count(s[1..], c)
  }

  /** Cutting `s` at every `c`: the reference inverse of Join. Every piece is free
      of `c`, and there is one piece more than there are separators. */
  function Split(s: string, c: char): (pieces: seq<string>)
    ensures |pieces| == Count(s, c) + 1
    ensures forall i :: 0 <= i < |pieces| ==> c !in pieces[i]
  {
    if s == [] then [""]
    else
      var rest := Split(s[1..], c);
      if s[0] == c then [""] + rest
      else [[s[0]] + rest[0]] + rest[1..]
  }

  predicate FreeOf(parts: seq<string>, c: char) {
    forall i :: 0 <= i < |parts| ==> c !in parts[i]
  }

  /** Splitting a separator-free prefix glued to `t` extends the first piece of `t`. */
  lemma {:induction false} SplitPrefix(p: string, t: string, c: char)
    requires c !in p
    ensures Split(p + t, c) == [p + Split(t, c)[0]] + Split(t, c)[1..]
  {
    if p != [] {
      assert (p + t)[0] == p[0];
      assert (p + t)[1..] == p[1..] + t;
      SplitPrefix(p[1..], t, c);
      assert [p[0]] + (p[1..] + Split(t, c)[0]) == p + Split(t, c)[0];
    } else {
      var pieces := Split(t, c);
      assert p + t == t && p + pieces[0] == pieces[0];
      assert pieces == [pieces[0]] + pieces[1..];
    }
  }

  /** Join then Split gives back the parts, when no part holds the separator. */
  lemma {:induction false} SplitJoin(parts: seq<string>, c: char)
    requires |parts| > 0 && FreeOf(parts, c)
    ensures Split(Join(parts, c), c) == parts
  {
    if |parts| == 1 {
      SplitPrefix(parts[0], "", c);
      assert parts[0] + "" == parts[0];
    } else {
      var j := Join(parts[1..], c);
      assert Join(parts, c) == parts[0] + ([c] + j);
      SplitPrefix(parts[0], [c] + j, c);
      assert ([c] + j)[1..] == j;
      assert Split([c] + j, c) == [""] + Split(j, c);
      SplitJoin(parts[1..], c);
      assert parts[0] + "" == parts[0];
      assert parts == [parts[0]] + parts[1..];
    }
  }

  /** Split then Join gives back any string. */
  lemma {:induction false} JoinSplit(s: string, c: char)
    ensures Join(Split(s, c), c) == s
  {
    if s != [] {
      var t := s[1..];
      var rest := Split(t, c);
      JoinSplit(t, c);
      assert s == [s[0]] + t;
      if s[0] == c {
        var pieces := [""] + rest;
        assert Split(s, c) == pieces;
        assert pieces[0] == "" && pieces[1..] == rest;
        assert Join(pieces, c) == "" + [c] + Join(rest, c);
      } else if |rest| == 1 {
        var pieces := [[s[0]] + rest[0]];
        assert Split(s, c) == pieces;
        assert Join(pieces, c) == [s[0]] + rest[0];
      } else {
        var pieces := [[s[0]] + rest[0]] + rest[1..];
        assert Split(s, c) == pieces;
        assert pieces[1..] == rest[1..];
        assert Join(pieces, c) == [s[0]] + rest[0] + [c] + Join(rest[1..], c);
        assert Join(rest, c) == rest[0] + [c] + Join(rest[1..], c);
      }
    }
  }

  /** n separator-free parts joined together hold exactly n - 1 separators. */
  lemma SeparatorCount(parts: seq<string>, c: char)
    requires |parts| > 0 && FreeOf(parts, c)
    ensures Count(Join(parts, c), c) == |parts| - 1
  {
    SplitJoin(parts, c);
  }

  /** ExceptionUtils.buildMessage; `None` is a null exception and a null result. */
  function BuildMessage(e: Option<Exception>): (r: Option<string>)
    ensures e.None? ==> r == Some(FALLBACK_MESSAGE)
    ensures e.Some? && !e.value.ConstraintViolationException? ==> r == e.value.message
    ensures e.Some? && e.value.ConstraintViolationException? ==> r.Some?
  {
    match e
    case None => Some(FALLBACK_MESSAGE)
    case Some(ConstraintViolationException(vs)) => Some(Join(Messages(vs), SEPARATOR))
    case Some(x) => x.message
  }

  /** A constraint violation exception without violations gives the empty text. */
  lemma BuildMessageNoViolations()
    ensures BuildMessage(Some(ConstraintViolationException([]))) == Some("")
  {
  }

  /** One violation gives exactly its own message, with no separator added. */
  lemma BuildMessageSingleViolation(v: ConstraintViolation)
    ensures BuildMessage(Some(ConstraintViolationException([v]))) == Some(v.message)
  {
  }

  /** Several separator-free violation messages: the text holds |vs| - 1 separators
      and cutting it at the separators gives back every message, in order. */
  lemma BuildMessageViolations(vs: seq<ConstraintViolation>)
    requires |vs| > 0
    requires forall i :: 0 <= i < |vs| ==> SEPARATOR !in vs[i].message
    ensures BuildMessage(Some(ConstraintViolationException(vs))).Some?
    ensures Split(BuildMessage(Some(ConstraintViolationException(vs))).value, SEPARATOR) == Messages(vs)
    ensures Count(BuildMessage(Some(ConstraintViolationException(vs))).value, SEPARATOR) == |vs| - 1
  {
    SplitJoin(Messages(vs), SEPARATOR);
  }
}
