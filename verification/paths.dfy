/** Relative POSIX paths, as text and as lists of names. */
module Paths {
  import opened Text
  import opened Sorting

  type Path = seq<string>

  predicate Avoids(s: string, c: char) {
    forall i | 0 <= i < |s| :: s[i] != c
  }

  /** `s.split(sep)`: the pieces between separators, one more than there are separators. */
  function Split(s: string, sep: char): (r: seq<string>)
    ensures r != []
  {
    if s == [] then [[]]
    else
      var rest := Split(s[1..], sep);
      if s[0] == sep then [[]] + rest else [[s[0]] + rest[0]] + rest[1..]
  }

  /** `sep.join(parts)`. */
  function Join(parts: seq<string>, sep: char): string {
    if parts == [] then []
    else if |parts| == 1 then parts[0]
    else parts[0] + [sep] + Join(parts[1..], sep)
  }

  lemma {:induction false} JoinSplit(s: string, sep: char)
    ensures Join(Split(s, sep), sep) == s
    ensures forall part | part in Split(s, sep) :: Avoids(part, sep)
  {
    if s != [] {
      var rest := Split(s[1..], sep);
      JoinSplit(s[1..], sep);
      if s[0] == sep {
        assert ([[]] + rest)[1..] == rest;
      } else {
        assert rest[0] in rest;
        var r := [[s[0]] + rest[0]] + rest[1..];
        assert r[1..] == rest[1..];
        assert s == [s[0]] + s[1..];
      }
    }
  }

  lemma {:induction false} SplitPiece(piece: string, rest: string, sep: char)
    requires Avoids(piece, sep)
    ensures Split(piece, sep) == [piece]
    ensures Split(piece + [sep] + rest, sep) == [piece] + Split(rest, sep)
  {
    var s := piece + [sep] + rest;
    if piece == [] {
      assert s[1..] == rest;
    } else {
      SplitPiece(piece[1..], rest, sep);
      assert s[0] == piece[0] && s[1..] == piece[1..] + [sep] + rest;
      assert [piece[0]] + piece[1..] == piece;
    }
  }

  lemma {:induction false} SplitJoin(parts: seq<string>, sep: char)
    requires parts != [] && forall i | 0 <= i < |parts| :: Avoids(parts[i], sep)
    ensures Split(Join(parts, sep), sep) == parts
  {
    if |parts| == 1 {
      SplitPiece(parts[0], [], sep);
    } else {
      SplitJoin(parts[1..], sep);
      SplitPiece(parts[0], Join(parts[1..], sep), sep);
      assert parts == [parts[0]] + parts[1..];
    }
  }

  /** A name that may stand between two slashes of a normal path. */
  predicate IsName(name: string) {
    name != [] && name != "." && Avoids(name, '/')
  }

  predicate IsPath(p: Path) {
    forall i | 0 <= i < |p| :: IsName(p[i])
  }

  /** `PurePosixPath(...).as_posix()` of a relative path. */
  function Posix(p: Path): string {
    if p == [] then "." else Join(p, '/')
  }

  /** `PurePosixPath(text).parts` of a relative path: empty pieces and dots vanish. */
  function Parts(text: string): Path {
    DropDots(Split(text, '/'))
  }

  function DropDots(pieces: seq<string>): seq<string> {
    if pieces == [] then []
    else if pieces[0] == [] || pieces[0] == "." then DropDots(pieces[1..])
    else [pieces[0]] + DropDots(pieces[1..])
  }

  lemma {:induction false} DropDotsKeepsNames(p: Path)
    requires IsPath(p)
    ensures DropDots(p) == p
  {
    if p != [] {
      DropDotsKeepsNames(p[1..]);
      assert p == [p[0]] + p[1..];
    }
  }

  lemma {:induction false} DropDotsGivesNames(pieces: seq<string>)
    requires forall i | 0 <= i < |pieces| :: Avoids(pieces[i], '/')
    ensures IsPath(DropDots(pieces))
  {
    if pieces != [] {
      DropDotsGivesNames(pieces[1..]);
    }
  }

  lemma PartsIsPath(text: string)
    ensures IsPath(Parts(text))
  {
    JoinSplit(text, '/');
    var pieces := Split(text, '/');
    assert forall i | 0 <= i < |pieces| :: pieces[i] in pieces;
    DropDotsGivesNames(pieces);
  }

  /** Text and names say the same about a path. */
  lemma PartsOfPosix(p: Path)
    requires IsPath(p)
    ensures Parts(Posix(p)) == p
  {
    if p == [] {
      SplitPiece(".", [], '/');
    } else {
      SplitJoin(p, '/');
      DropDotsKeepsNames(p);
    }
  }

  lemma PosixInjective(p: Path, q: Path)
    requires IsPath(p) && IsPath(q) && Posix(p) == Posix(q)
    ensures p == q
  {
    PartsOfPosix(p);
    PartsOfPosix(q);
  }

  lemma {:induction false} JoinAppend(p: Path, q: Path, sep: char)
    requires p != [] && q != []
    ensures Join(p + q, sep) == Join(p, sep) + [sep] + Join(q, sep)
  {
    if |p| == 1 {
      assert (p + q)[1..] == q;
    } else {
      assert (p + q)[1..] == p[1..] + q;
      JoinAppend(p[1..], q, sep);
    }
  }

  /** A directory comes before everything in it. */
  lemma AncestorBefore(p: Path, q: Path)
    requires p != [] && q != []
    ensures Before(Posix(p), Posix(p + q), CharRank)
  {
    JoinAppend(p, q, '/');
    assert Posix(p + q) == Posix(p) + (['/'] + Join(q, '/'));
    ProperPrefixBefore(Posix(p), ['/'] + Join(q, '/'), CharRank);
  }

  predicate PathLe(p: Path, q: Path) {
    TextLe(Posix(p), Posix(q))
  }

  lemma TextLeIsTotalOrder()
    ensures IsTotalOrder(TextLe)
  {
    forall a, b, c
      ensures TextLe(a, b) || TextLe(b, a)
      ensures TextLe(a, b) && TextLe(b, a) ==> a == b
      ensures TextLe(a, b) && TextLe(b, c) ==> TextLe(a, c)
    {
      TextLeTotalOrder(a, b, c);
    }
  }

  lemma PathLeIsTotalPreorder()
    ensures IsTotalPreorder(PathLe)
  {
    forall a, b, c
      ensures PathLe(a, b) || PathLe(b, a)
      ensures PathLe(a, b) && PathLe(b, c) ==> PathLe(a, c)
    {
      TextLeTotalOrder(Posix(a), Posix(b), Posix(c));
    }
  }

  // ---------- The kit's portable paths ----------

  function LowerChar(c: char): char {
    if 'A' <= c <= 'Z' then (c as int + 32) as char else c
  }

  /** `casefold` on ASCII text. */
  function CaseFold(s: string): string {
    seq(|s|, i requires 0 <= i < |s| => LowerChar(s[i]))
  }

  predicate IsForbidden(c: char) {
    c in ['<', '>', ':', '"', '\\', '|', '?', '*']
  }

  predicate IsDeviceName(name: string) {
    || name in ["aux", "clock$", "con", "nul", "prn"]
    || (|name| == 4 && (name[..3] == "com" || name[..3] == "lpt") && '1' <= name[3] <= '9')
  }

  predicate PartIsPortable(part: string) {
    && part != "" && part != "." && part != ".."
    && |part| <= 255
    && part[0] != ' ' && part[|part| - 1] != ' '
    && part[|part| - 1] != '.'
    && !IsDeviceName(CaseFold(Split(part, '.')[0]))
  }

  predicate IsPrintableAscii(s: string) {
    forall i | 0 <= i < |s| :: 0x20 <= s[i] as int <= 0x7E
  }

  /** `_relative_path` accepts `text` (which is then ASCII, hence in normalisation form C).
      The single dot has no parts, so no test on parts can refuse it. */
  predicate IsPortablePath(text: string) {
    && text != "" && |text| <= 4096
    && IsPrintableAscii(text)
    && (forall i | 0 <= i < |text| :: !IsForbidden(text[i]))
    && text[0] != '/'
    && Posix(Parts(text)) == text
    && forall i | 0 <= i < |Parts(text)| :: PartIsPortable(Parts(text)[i])
  }
}
