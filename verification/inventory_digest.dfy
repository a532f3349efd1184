/** The digest of an inventory: what is hashed determines the inventory. */
module InventoryDigests {
  import opened Text
  import opened Paths
  import opened Sequences
  import opened Utf8
  import opened Inventories

  const NUL := '\0'
  const DIRECTORY := "directory"
  const FILE := "file"

  /** No name holds a NUL character, and hashes are 64 characters long. */
  predicate FileDigestible(f: TreeFile) {
    Avoids(f.relativePath, NUL) && |f.sha256| == 64
  }

  predicate Digestible(i: Inventory) {
    && (forall n | 0 <= n < |i.directories| :: Avoids(i.directories[n], NUL))
    && (forall n | 0 <= n < |i.files| :: FileDigestible(i.files[n]))
  }

  // ---------- Cutting a text at its first separator ----------

  lemma FirstSeparator(a: string, x: string, sep: char)
    requires Avoids(a, sep)
    ensures var s := a + [sep] + x; s[|a|] == sep && forall i | 0 <= i < |a| :: s[i] != sep
  {
  }

  lemma CutAtFirst(a: string, x: string, b: string, y: string, sep: char)
    requires Avoids(a, sep) && Avoids(b, sep) && a + [sep] + x == b + [sep] + y
    ensures a == b && x == y
  {
    var s, t := a + [sep] + x, b + [sep] + y;
    FirstSeparator(a, x, sep);
    FirstSeparator(b, y, sep);
    assert s[..|a|] == a && t[..|b|] == b;
    assert s[|a| + 1..] == x && t[|b| + 1..] == y;
  }

  predicate HasTag(s: string, tag: string) {
    |s| > |tag| && s[..|tag|] == tag && s[|tag|] == NUL
  }

  /** Nothing is left, or another line begins. */
  predicate Continues(s: string) {
    s == [] || HasTag(s, DIRECTORY) || HasTag(s, FILE)
  }

  lemma TagsDiffer(directory: string, file: string)
    requires directory == DIRECTORY && file == FILE
    ensures Avoids(directory, NUL) && Avoids(file, NUL) && directory[8] == 'y' && file[3] == 'e' && file[0] == 'f'
    ensures |directory| == 9 && |file| == 4 && directory[0] == 'd'
  {
  }

  lemma TaggedCut(d: string, r: string, tag: string, d': string, r': string, tag': string)
    requires Avoids(d, NUL) && Avoids(d', NUL) && Avoids(tag, NUL) && Avoids(tag', NUL)
    requires HasTag(r, tag) && HasTag(r', tag') && d + "\n" + r == d' + "\n" + r'
    ensures d + "\n" + tag == d' + "\n" + tag'
  {
    var front, front' := d + "\n" + tag, d' + "\n" + tag';
    assert r == tag + [NUL] + r[|tag| + 1..] && r' == tag' + [NUL] + r'[|tag'| + 1..];
    assert d + "\n" + r == front + [NUL] + r[|tag| + 1..];
    assert d' + "\n" + r' == front' + [NUL] + r'[|tag'| + 1..];
    CutAtFirst(front, r[|tag| + 1..], front', r'[|tag'| + 1..], NUL);
  }

  lemma SameFront(a: string, x: string, b: string, y: string)
    requires a + x == b + y && |a| == |b|
    ensures a == b && x == y
  {
    assert (a + x)[..|a|] == a && (b + y)[..|b|] == b && (a + x)[|a|..] == x && (b + y)[|b|..] == y;
  }

  /** Where no further line begins, there is no NUL. */
  lemma EndHasNoNul(d: string, r: string)
    requires Avoids(d, NUL) && Continues(r)
    ensures Avoids(d + "\n" + r, NUL) <==> r == []
  {
    var s := d + "\n" + r;
    if r == [] {
      assert s == d + "\n";
    } else {
      var tag := if HasTag(r, DIRECTORY) then DIRECTORY else FILE;
      assert s[|d| + 1 + |tag|] == r[|tag|];
    }
  }

  /** The name of a directory ends where the next line begins, also if it holds line breaks. */
  lemma DirectoryCut(d: string, r: string, d': string, r': string)
    requires Avoids(d, NUL) && Avoids(d', NUL) && Continues(r) && Continues(r') && d + "\n" + r == d' + "\n" + r'
    ensures d == d' && r == r'
  {
    TagsDiffer(DIRECTORY, FILE);
    EndHasNoNul(d, r);
    EndHasNoNul(d', r');
    if r == [] {
      assert d + "\n" + r == d + "\n" && d' + "\n" + r' == d' + "\n";
      SameFront(d, "\n", d', "\n");
    } else {
      var tag := if HasTag(r, DIRECTORY) then DIRECTORY else FILE;
      var tag' := if HasTag(r', DIRECTORY) then DIRECTORY else FILE;
      TaggedCut(d, r, tag, d', r', tag');
      SameTag(d, tag, d', tag');
      SameFront(d + "\n", r, d' + "\n", r');
      SameFront(d, "\n", d', "\n");
    }
  }

  lemma SameTag(d: string, tag: string, d': string, tag': string)
    requires tag in {DIRECTORY, FILE} && tag' in {DIRECTORY, FILE} && d + "\n" + tag == d' + "\n" + tag'
    ensures tag == tag' && |d| == |d'|
  {
    TagsDiffer(DIRECTORY, FILE);
    var s, t := d + "\n" + tag, d' + "\n" + tag';
    assert s[|s| - 1] == tag[|tag| - 1] && t[|t| - 1] == tag'[|tag'| - 1];
  }

  // ---------- The lines of a text ----------

  function TextOf(directories: seq<string>, files: seq<TreeFile>): string {
    Flat(DirectoryLine, directories) + Flat(FileLine, files)
  }

  lemma FlatFront<T>(line: T -> string, s: seq<T>)
    requires s != []
    ensures Flat(line, s) == line(s[0]) + Flat(line, s[1..])
  {
    assert s == [s[0]] + s[1..];
    FlatConcat(line, [s[0]], s[1..]);
    FlatSingle(line, s[0]);
  }

  lemma TaggedLine(tag: string, rest: string)
    ensures HasTag(tag + [NUL] + rest, tag)
  {
  }

  lemma DirectoryLineIs(d: string, rest: string)
    ensures DirectoryLine(d) + rest == DIRECTORY + [NUL] + (d + "\n" + rest)
  {
    assert "directory\0" == DIRECTORY + [NUL];
  }

  lemma FileLineIs(f: TreeFile, rest: string)
    ensures FileLine(f) + rest ==
            FILE + [NUL] + (f.relativePath + [NUL] + (Decimal(f.sizeBytes) + [NUL] + (f.sha256 + ("\n" + rest))))
  {
    assert "file\0" == FILE + [NUL];
  }

  lemma DirectoryFirst(directories: seq<string>, files: seq<TreeFile>)
    requires directories != []
    ensures TextOf(directories, files) ==
            DIRECTORY + [NUL] + (directories[0] + "\n" + TextOf(directories[1..], files))
    ensures HasTag(TextOf(directories, files), DIRECTORY)
  {
    FlatFront(DirectoryLine, directories);
    var rest := Flat(DirectoryLine, directories[1..]) + Flat(FileLine, files);
    assert TextOf(directories, files) == DirectoryLine(directories[0]) + rest;
    DirectoryLineIs(directories[0], rest);
    TaggedLine(DIRECTORY, directories[0] + "\n" + rest);
  }

  lemma FileFirst(files: seq<TreeFile>)
    requires files != []
    ensures TextOf([], files) == FileLine(files[0]) + TextOf([], files[1..])
    ensures HasTag(TextOf([], files), FILE)
  {
    FlatFront(FileLine, files);
    var rest := TextOf([], files[1..]);
    assert Flat(DirectoryLine, []) == [] && rest == Flat(FileLine, files[1..]);
    assert TextOf([], files) == FileLine(files[0]) + rest;
    FileLineIs(files[0], rest);
    var f := files[0];
    TaggedLine(FILE, f.relativePath + [NUL] + (Decimal(f.sizeBytes) + [NUL] + (f.sha256 + ("\n" + rest))));
  }

  lemma TagsExclude(s: string)
    ensures !(HasTag(s, DIRECTORY) && HasTag(s, FILE)) && !HasTag([], DIRECTORY) && !HasTag([], FILE)
  {
    TagsDiffer(DIRECTORY, FILE);
    assert HasTag(s, DIRECTORY) ==> s[0] == DIRECTORY[0];
    assert HasTag(s, FILE) ==> s[0] == FILE[0];
  }

  /** The first tag tells which list goes on. */
  lemma FirstTag(directories: seq<string>, files: seq<TreeFile>)
    ensures var s := TextOf(directories, files);
            && (HasTag(s, DIRECTORY) <==> directories != []) && Continues(s)
            && (directories == [] ==> (HasTag(s, FILE) <==> files != []))
  {
    TagsExclude(TextOf(directories, files));
    if directories != [] {
      DirectoryFirst(directories, files);
    } else if files != [] {
      FileFirst(files);
    } else {
      assert TextOf([], []) == [];
    }
  }

  lemma DigitsAvoidNul(s: string)
    requires AllDigits(s)
    ensures Avoids(s, NUL)
  {
  }

  /** A line of a file ends after the 64 characters of its hash. */
  lemma FileCut(f: TreeFile, r: string, g: TreeFile, q: string)
    requires FileDigestible(f) && FileDigestible(g) && FileLine(f) + r == FileLine(g) + q
    ensures f == g && r == q
  {
    FileLineIs(f, r);
    FileLineIs(g, q);
    DigitsAvoidNul(Decimal(f.sizeBytes));
    DigitsAvoidNul(Decimal(g.sizeBytes));
    var end, end' := f.sha256 + ("\n" + r), g.sha256 + ("\n" + q);
    var size, size' := Decimal(f.sizeBytes) + [NUL] + end, Decimal(g.sizeBytes) + [NUL] + end';
    var path, path' := f.relativePath + [NUL] + size, g.relativePath + [NUL] + size';
    SameFront(FILE + [NUL], path, FILE + [NUL], path');
    CutAtFirst(f.relativePath, size, g.relativePath, size', NUL);
    CutAtFirst(Decimal(f.sizeBytes), end, Decimal(g.sizeBytes), end', NUL);
    DecimalInjective(f.sizeBytes, g.sizeBytes);
    SameFront(f.sha256, "\n" + r, g.sha256, "\n" + q);
    SameFront("\n", r, "\n", q);
  }

  // ---------- The text determines the lists ----------

  lemma {:induction false} FilesDetermined(a: seq<TreeFile>, b: seq<TreeFile>)
    requires Digestible(Inventory([], a)) && Digestible(Inventory([], b)) && TextOf([], a) == TextOf([], b)
    ensures a == b
  {
    FirstTag([], a);
    FirstTag([], b);
    if a != [] {
      FileFirst(a);
      FileFirst(b);
      FileCut(a[0], TextOf([], a[1..]), b[0], TextOf([], b[1..]));
      FilesDetermined(a[1..], b[1..]);
      assert a == [a[0]] + a[1..] && b == [b[0]] + b[1..];
    }
  }

  lemma {:induction false} ListsDetermined(a: seq<string>, f: seq<TreeFile>, b: seq<string>, g: seq<TreeFile>)
    requires Digestible(Inventory(a, f)) && Digestible(Inventory(b, g)) && TextOf(a, f) == TextOf(b, g)
    ensures a == b && f == g
  {
    FirstTag(a, f);
    FirstTag(b, g);
    if a == [] {
      FilesDetermined(f, g);
    } else {
      var r, q := TextOf(a[1..], f), TextOf(b[1..], g);
      DirectoryFirst(a, f);
      DirectoryFirst(b, g);
      SameFront(DIRECTORY + [NUL], a[0] + "\n" + r, DIRECTORY + [NUL], b[0] + "\n" + q);
      FirstTag(a[1..], f);
      FirstTag(b[1..], g);
      DirectoryCut(a[0], r, b[0], q);
      ListsDetermined(a[1..], f, b[1..], g);
      assert a == [a[0]] + a[1..] && b == [b[0]] + b[1..];
    }
  }

  /** Two inventories are hashed from the same bytes exactly when they are equal, even with line breaks in names. */
  lemma DigestBytesDetermine(a: Inventory, b: Inventory)
    requires Digestible(a) && Digestible(b)
    ensures Encode(DigestText(a)) == Encode(DigestText(b)) <==> a == b
  {
    if Encode(DigestText(a)) == Encode(DigestText(b)) {
      EncodeInjective(DigestText(a), DigestText(b));
      ListsDetermined(a.directories, a.files, b.directories, b.files);
    }
  }
}
