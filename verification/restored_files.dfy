/** Where restored files go: beside the original, under names of their own that the daemon does not follow. */
module RestoredFiles {
  import opened CText
  import opened Sequences
  import opened BackupHistory
  import opened BackupTheorems
  import ChangeQueue

  const MARK := "_restored_"

  lemma {:induction false} BasenameBehind(dir: string, name: string)
    requires '/' !in name
    ensures Basename(dir + ("/" + name)) == name
    decreases |dir|
  {
    var path := dir + ("/" + name);
    assert path[|dir|] == '/';
    if dir == "" {
      assert path[1..] == name;
    } else {
      assert path[1..] == dir[1..] + ("/" + name);
      BasenameBehind(dir[1..], name);
    }
  }

  /** The parts of the name in front of the mark and behind the number. */
  function Stem(name: string): string { name[..LastDot(name)] }

  function Extension(name: string): string { name[LastDot(name)..] }

  function FullName(name: string, k: nat): string { Stem(name) + (MARK + (Decimal(k) + Extension(name))) }

  lemma RestoredNameParts(filename: string, k: nat)
    requires |FullName(Basename(filename), k)| < MAX_PATH_LEN
    ensures RestoredName(filename, k) == FullName(Basename(filename), k)
  {
    var name := Basename(filename);
    var d := LastDot(name);
    assert name[..|name|] == name && Decimal(k) + "" == Decimal(k);
    Assoc(Stem(name), MARK, Decimal(k));
    Assoc(Stem(name), MARK + Decimal(k), Extension(name));
    Assoc(MARK, Decimal(k), Extension(name));
  }

  lemma {:induction false} ContainsAt(a: string, part: string, b: string)
    ensures ChangeQueue.Contains(a + (part + b), part)
    decreases |a|
  {
    var s := a + (part + b);
    if a == "" {
      assert part <= s;
    } else {
      assert s[1..] == a[1..] + (part + b);
      ContainsAt(a[1..], part, b);
    }
  }

  lemma FullNameDiffers(name: string, j: nat, k: nat)
    ensures |FullName(name, j)| > |name|
    ensures FullName(name, j) == FullName(name, k) ==> j == k
  {
    assert |Stem(name)| + |Extension(name)| == |name|;
    if FullName(name, j) == FullName(name, k) {
      var a, b := Decimal(j) + Extension(name), Decimal(k) + Extension(name);
      assert FullName(name, j)[|Stem(name)| + |MARK|..] == a && FullName(name, k)[|Stem(name)| + |MARK|..] == b;
      TailsEqual(Decimal(j), Decimal(k), Extension(name), Extension(name));
      ValueOfDecimal(j);
      ValueOfDecimal(k);
    }
  }

  lemma SlashFree(name: string, k: nat)
    requires '/' !in name
    ensures '/' !in FullName(name, k)
  {
    assert forall i :: 0 <= i < |Decimal(k)| ==> IsDigit(Decimal(k)[i]);
  }

  /**
   While its name fits, a restored file has its own path for each sample, none of them that of the original,
   and keeps the extension of the original; whatever happens to it, the daemon does not follow it.
   */
  lemma RestoredFilesAreApart(dir: string, filename: string, j: nat, k: nat, mask: nat, w: ChangeQueue.World)
    requires |FullName(Basename(filename), j)| < MAX_PATH_LEN && |FullName(Basename(filename), k)| < MAX_PATH_LEN
    ensures j != k ==> RestoredName(filename, j) != RestoredName(filename, k)
    ensures Basename(dir + ("/" + RestoredName(filename, k))) == RestoredName(filename, k) != Basename(filename)
    ensures var name, r := Basename(filename), RestoredName(filename, k);
            |name| - LastDot(name) <= |r| && r[|r| - (|name| - LastDot(name))..] == Extension(name)
    ensures !ChangeQueue.Follows(mask, dir + ("/" + RestoredName(filename, k)), w)
  {
    var name := Basename(filename);
    RestoredNameParts(filename, j);
    RestoredNameParts(filename, k);
    FullNameDiffers(name, k, j);
    NoSlashIn(filename);
    SlashFree(name, k);
    BasenameBehind(dir, FullName(name, k));
    ContainsAt(Stem(name), MARK, Decimal(k) + Extension(name));
  }
}
