/** The path a completed upload is stored under: its name, the mark "_file_", the time in decimal, and an extension. */
module StorePath {
  import opened Wrappers

  const MARK: string := "_file_"

  predicate IsDigit(c: char) { '0' <= c <= '9' }

  function DigitOf(d: nat): char
    requires d < 10
  {
    (d as char) + '0'
  }

  /** A number as decimal text. */
  function Digits(n: nat): (s: string)
    ensures s != "" && forall i | 0 <= i < |s| :: IsDigit(s[i])
  {
    if n < 10 then [DigitOf(n)] else Digits(n / 10) + [DigitOf(n % 10)]
  }

  function ValueOf(s: string): nat
    requires forall i | 0 <= i < |s| :: IsDigit(s[i])
  {
    if s == "" then 0
    else
      assert IsDigit(s[|s| - 1]);
      10 * ValueOf(s[..|s| - 1]) + (s[|s| - 1] as int - '0' as int)
  }

  lemma {:induction false} ValueOfDigits(n: nat)
    ensures ValueOf(Digits(n)) == n
  {
    var s := Digits(n);
    if n >= 10 {
      ValueOfDigits(n / 10);
      assert s[..|s| - 1] == Digits(n / 10);
    } else {
      assert s[..|s| - 1] == "";
    }
  }

  /** file_entry_id("file") gives the mark and the time. */
  function StoreName(name: string, time: nat, ext: string): string {
    name + MARK + Digits(time) + "." + ext
  }

  function PathIn(dir: string, name: string, time: nat, ext: string): string {
    dir + "/" + StoreName(name, time, ext)
  }

  // ---- reading a store name back -----------------------------------------------------------------

  predicate MarkAt(s: string, i: nat) {
    i + |MARK| <= |s| && s[i..i + |MARK|] == MARK
  }

  predicate Contains(s: string) {
    exists i: nat | i < |s| :: MarkAt(s, i)
  }

  /** The last position of the mark below n. */
  function LastMark(s: string, n: nat): (r: Option<nat>)
    ensures r.Some? ==> r.value < n && MarkAt(s, r.value)
    ensures forall i: nat | i < n && MarkAt(s, i) :: r.Some? && i <= r.value
  {
    if n == 0 then None else if MarkAt(s, n - 1) then Some(n - 1) else LastMark(s, n - 1)
  }

  /** The parts of a store name: what precedes the last mark, the digits up to the next dot, and the rest. */
  function Read(s: string): Option<(string, nat, string)> {
    var m := LastMark(s, |s|);
    if m.None? then None
    else
      var rest := s[m.value + |MARK|..];
      if '.' !in rest then None
      else
        var d := IndexOf(rest, '.');
        if forall i | 0 <= i < d :: IsDigit(rest[i]) then Some((s[..m.value], ValueOf(rest[..d]), rest[d + 1..]))
        else None
  }

  /** A mark that starts after the one that follows the name lies wholly in the extension. */
  lemma LaterMarkInExtension(name: string, digits: string, ext: string, i: nat)
    requires digits != "" && forall j | 0 <= j < |digits| :: IsDigit(digits[j])
    requires MarkAt(name + MARK + digits + "." + ext, i) && i > |name|
    ensures Contains(ext)
  {
    var s, base := name + MARK + digits + "." + ext, |name| + |MARK|;
    assert s[i] == s[i..i + |MARK|][0] == '_' && s[i + 1] == s[i..i + |MARK|][1] == 'f';
    assert forall j | base <= j < base + |digits| :: s[j] == digits[j - base];
    assert s[base] == digits[0];
    assert forall j | |name| <= j < base :: s[j] == MARK[j - |name|];
    assert i > base + |digits|;
    var j := i - (base + |digits| + 1);
    assert s[i..i + |MARK|] == ext[j..j + |MARK|];
    assert MarkAt(ext, j);
  }

  lemma LastMarkOfStoreName(name: string, time: nat, ext: string)
    requires !Contains(ext)
    ensures var s := StoreName(name, time, ext); LastMark(s, |s|) == Some(|name|)
  {
    var s := StoreName(name, time, ext);
    assert s[|name|..|name| + |MARK|] == MARK;
    assert MarkAt(s, |name|);
    var m := LastMark(s, |s|).value;
    if m > |name| { LaterMarkInExtension(name, Digits(time), ext, m); }
  }

  lemma FirstDot(digits: string, ext: string)
    requires forall j | 0 <= j < |digits| :: IsDigit(digits[j])
    ensures var rest := digits + "." + ext;
            '.' in rest && IndexOf(rest, '.') == |digits| && rest[..|digits|] == digits && rest[|digits| + 1..] == ext
  {
    var rest := digits + "." + ext;
    assert rest[|digits|] == '.';
    assert forall j | 0 <= j < |digits| :: rest[j] == digits[j];
  }

  /** When the extension does not contain the mark, name, time and extension are recovered from the store name. */
  lemma ReadUndoesStoreName(name: string, time: nat, ext: string)
    requires !Contains(ext)
    ensures Read(StoreName(name, time, ext)) == Some((name, time, ext))
  {
    var s := StoreName(name, time, ext);
    LastMarkOfStoreName(name, time, ext);
    assert s[|name| + |MARK|..] == Digits(time) + "." + ext;
    assert s[..|name|] == name;
    FirstDot(Digits(time), ext);
    ValueOfDigits(time);
  }

  /** So distinct files never share a path under extensions without the mark, whenever they are stored. */
  lemma DistinctFilesDistinctPaths(dir: string, n1: string, t1: nat, e1: string, n2: string, t2: nat, e2: string)
    requires !Contains(e1) && !Contains(e2)
    requires PathIn(dir, n1, t1, e1) == PathIn(dir, n2, t2, e2)
    ensures n1 == n2 && t1 == t2 && e1 == e2
  {
    var p1, p2 := PathIn(dir, n1, t1, e1), PathIn(dir, n2, t2, e2);
    assert p1[|dir| + 1..] == StoreName(n1, t1, e1);
    assert p2[|dir| + 1..] == StoreName(n2, t2, e2);
    ReadUndoesStoreName(n1, t1, e1);
    ReadUndoesStoreName(n2, t2, e2);
  }

  /** With one and the same extension that holds whatever the extension contains. */
  lemma SameExtensionDistinctPaths(dir: string, n1: string, t1: nat, n2: string, t2: nat, ext: string)
    requires PathIn(dir, n1, t1, ext) == PathIn(dir, n2, t2, ext)
    ensures n1 == n2 && t1 == t2
  {
    var p1, p2 := PathIn(dir, n1, t1, ext), PathIn(dir, n2, t2, ext);
    var tail := "." + ext;
    assert p1[..|p1| - |tail|] == dir + "/" + n1 + MARK + Digits(t1);
    assert p2[..|p2| - |tail|] == dir + "/" + n2 + MARK + Digits(t2);
    assert !Contains("");
    assert PathIn(dir, n1, t1, "") == dir + "/" + n1 + MARK + Digits(t1) + ".";
    assert PathIn(dir, n2, t2, "") == dir + "/" + n2 + MARK + Digits(t2) + ".";
    DistinctFilesDistinctPaths(dir, n1, t1, "", n2, t2, "");
  }

  /** An extension with the mark in it can make two different files meet. */
  lemma MarkInExtensionCollides()
    ensures StoreName("a", 1, "x_file_2.y") == StoreName("a_file_1.x", 2, "y")
  {}
}
