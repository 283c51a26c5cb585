/** File-name and directory parts of a path, where both '/' and '\' count
    as separators. */
module FilePaths {
  import opened Text

  const Separators: set<char> := {'/', '\\'}

  /** The last piece of the split, or the whole path when that piece is empty. */
  function FileName(filePath: string): (name: string)
    ensures name != "" || filePath == ""
  {
    var parts := SplitOn(filePath, Separators);
    var last := parts[|parts| - 1];
    if last != "" then last else filePath
  }

  /** Every piece but the last, joined with '/', or "." when that is empty. */
  function Directory(filePath: string): (dir: string)
    ensures dir != ""
  {
    var parts := SplitOn(filePath, Separators);
    var joined := Join(parts[..|parts| - 1], "/");
    if joined != "" then joined else "."
  }

  /** `k` is the position of the last separator of `p`. */
  predicate LastSeparatorAt(p: string, k: nat) {
    k < |p| && p[k] in Separators && forall j :: k < j < |p| ==> p[j] !in Separators
  }

  lemma SplitAtLast(p: string, k: nat)
    requires LastSeparatorAt(p, k)
    ensures SplitOn(p, Separators) == SplitOn(p[..k], Separators) + [p[k + 1..]]
  {
    assert p == p[..k] + [p[k]] + p[k + 1..];
    SplitAtSeparator(p[..k], p[k], p[k + 1..], Separators);
    SplitWithoutSeparator(p[k + 1..], Separators);
  }

  /** Without a separator the file name is the whole path and the
      directory is ".". */
  lemma NoSeparator(p: string)
    requires forall c :: c in p ==> c !in Separators
    ensures FileName(p) == p
    ensures Directory(p) == "."
  {
    SplitWithoutSeparator(p, Separators);
  }

  /** The file name is what follows the last separator; when nothing
      follows it, the file name is the whole path. */
  lemma FileNameAfterLastSeparator(p: string, k: nat)
    requires LastSeparatorAt(p, k)
    ensures FileName(p) == if k + 1 < |p| then p[k + 1..] else p
  {
    SplitAtLast(p, k);
  }

  /** The directory is what precedes the last separator, with every '\'
      turned into '/', or "." when that is empty. */
  lemma DirectoryBeforeLastSeparator(p: string, k: nat)
    requires LastSeparatorAt(p, k)
    ensures Directory(p) ==
      var before := ReplaceAll(p[..k], Separators, '/');
      if before != "" then before else "."
  {
    SplitAtLast(p, k);
    var parts := SplitOn(p, Separators);
    assert parts[..|parts| - 1] == SplitOn(p[..k], Separators);
    JoinSplit(p[..k], Separators, '/');
  }

  /** "a.md" and "/a.md" both lie in ".". */
  lemma TopLevelDirectory(name: string, c: char)
    requires c in Separators && forall x :: x in name ==> x !in Separators
    ensures Directory(name) == "." && Directory([c] + name) == "."
  {
    NoSeparator(name);
    var p := [c] + name;
    assert LastSeparatorAt(p, 0);
    DirectoryBeforeLastSeparator(p, 0);
  }

  /** A path with a separator, a file name after its last separator and a
      non-empty directory part is its directory, '/', and its file name,
      once every '\' is a '/'. */
  lemma Reassemble(p: string, k: nat)
    requires LastSeparatorAt(p, k) && k + 1 < |p| && ReplaceAll(p[..k], Separators, '/') != ""
    ensures Directory(p) + "/" + FileName(p) == ReplaceAll(p, Separators, '/')
  {
    FileNameAfterLastSeparator(p, k);
    DirectoryBeforeLastSeparator(p, k);
    var whole := ReplaceAll(p, Separators, '/');
    var left := ReplaceAll(p[..k], Separators, '/') + "/" + p[k + 1..];
    assert |left| == |whole|;
    forall i | 0 <= i < |whole| ensures left[i] == whole[i] {
      if i < k {
        assert left[i] == ReplaceAll(p[..k], Separators, '/')[i];
      } else if i > k {
        assert left[i] == p[i];
      }
    }
  }
}
