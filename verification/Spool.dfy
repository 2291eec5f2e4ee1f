/** The agent's disk spool: a byte-bounded FIFO of batches kept as files whose
    names carry a zero-padded sequence number. */
module SpoolNames {
  import opened Text

  const NameWidth: nat := 16
  const Suffix: string := ".json"

  /** The first number that no longer fits the file name. */
  function NameLimit(): nat {
    Pow10(NameWidth)
  }

  predicate BatchName(name: string) {
    |name| == NameWidth + |Suffix| && name[NameWidth..] == Suffix && AllDigits(name[..NameWidth])
  }

  /** Sprintf("%0*d.json"). */
  function FileName(n: nat): string {
    ZeroPadded(n, NameWidth) + Suffix
  }

  function SeqOf(name: string): nat
    requires BatchName(name)
  {
    Value(name[..NameWidth])
  }

  /** batchName: the length, the suffix, then every character of the number. */
  method IsBatchName(name: string) returns (yes: bool)
    ensures yes <==> BatchName(name)
  {
    if |name| != NameWidth + |Suffix| || name[NameWidth..] != Suffix {
      return false;
    }
    for i := 0 to NameWidth
      invariant AllDigits(name[..i])
    {
      if name[i] < '0' || name[i] > '9' {
        assert !IsDigit(name[..NameWidth][i]);
        return false;
      }
      assert name[..i + 1] == name[..i] + [name[i]];
    }
    return true;
  }

  /** seqOf: the running total never exceeds what int64 can hold. */
  method ParseSeq(name: string) returns (n: nat)
    requires BatchName(name)
    ensures n == SeqOf(name) && n < 0x8000_0000_0000_0000
  {
    n := 0;
    var digits := name[..NameWidth];
    for i := 0 to NameWidth
      invariant n == Value(digits[..i])
    {
      assert digits[..i + 1][..i] == digits[..i] && digits[i] == name[i];
      n := n * 10 + (name[i] as int - '0' as int);
    }
    assert digits[..NameWidth] == digits;
    ValueBound(digits);
    LimitFits();
  }

  lemma LimitFits()
    ensures NameLimit() == 10_000_000_000_000_000
    ensures NameLimit() < 0x8000_0000_0000_0000
  {
    assert Pow10(4) == 10_000;
    PowSplit(4, 4);
    PowSplit(8, 8);
  }

  lemma {:induction false} PowSplit(a: nat, b: nat)
    ensures Pow10(a + b) == Pow10(a) * Pow10(b)
  {
    if b > 0 {
      PowSplit(a, b - 1);
    }
  }

  /** Every number below the limit has a name that is recognised and reads back. */
  lemma NameRoundTrip(n: nat)
    ensures BatchName(FileName(n)) <==> n < NameLimit()
    ensures n < NameLimit() ==> SeqOf(FileName(n)) == n
  {
    if n < NameLimit() {
      ValueOfPad(n, NameWidth);
      assert FileName(n)[..NameWidth] == Pad(n, NameWidth) && FileName(n)[NameWidth..] == Suffix;
    } else {
      WideNumber(n, NameWidth);
    }
  }

  /** Every recognised name is the name of the number it reads as. */
  lemma NamesAreNumbers(name: string)
    requires BatchName(name)
    ensures SeqOf(name) < NameLimit() && FileName(SeqOf(name)) == name
  {
    ValueBound(name[..NameWidth]);
    PadOfValue(name[..NameWidth]);
    assert name == name[..NameWidth] + name[NameWidth..];
  }

  /** Sorting names as text sorts the numbers. */
  lemma NameOrder(a: string, b: string)
    requires BatchName(a) && BatchName(b)
    ensures Less(a, b) <==> SeqOf(a) < SeqOf(b)
    ensures a == b <==> SeqOf(a) == SeqOf(b)
  {
    assert a == a[..NameWidth] + Suffix && b == b[..NameWidth] + Suffix;
    LessByField(a[..NameWidth], b[..NameWidth], Suffix, Suffix);
    LessIrreflexive(Suffix);
    DigitOrder(a[..NameWidth], b[..NameWidth]);
    NamesAreNumbers(a);
    NamesAreNumbers(b);
  }
}

module SpoolDirectory {
  import opened Wrappers
  import opened Text
  import opened SpoolNames
  import Sorting

  datatype Item = Item(path: string, batchId: string, body: string)

  /** A directory entry; a document whose content does not parse holds no item. */
  datatype Entry = Folder | Document(size: nat, item: Option<Item>)

  type Directory = map<string, Entry>

  /** Parsed content that names the route to replay it to. */
  predicate Usable(item: Option<Item>) {
    item.Some? && item.value.path != ""
  }

  /** An entry Front accepts. */
  predicate Readable(e: Entry) {
    e.Document? && Usable(e.item)
  }

  predicate IsBatchFile(dir: Directory, name: string) {
    name in dir && dir[name].Document? && BatchName(name)
  }

  /** A sub-directory can stand where a file should go. */
  ghost predicate HasFolder(dir: Directory) {
    exists n :: n in dir && dir[n].Folder?
  }

  ghost predicate IsListing(ns: seq<string>, dir: Directory) {
    && (forall i, j :: 0 <= i < j < |ns| ==> Less(ns[i], ns[j]))
    && (forall n :: n in ns <==> IsBatchFile(dir, n))
  }

  ghost function Enumerate(s: set<string>): seq<string> {
    if s == {} then [] else var x :| x in s; [x] + Enumerate(s - {x})
  }

  /** The batch files of a directory, oldest first. */
  ghost function Listing(dir: Directory): seq<string> {
    Sorting.Sort(Enumerate(set n | n in dir && IsBatchFile(dir, n)), AtMost)
  }

  lemma TextOrderIsTotal()
    ensures Sorting.TotalOrder(AtMost)
  {
    forall x: string, y: string, z: string
      ensures AtMost(x, y) || AtMost(y, x)
      ensures AtMost(x, y) && AtMost(y, z) ==> AtMost(x, z)
      ensures AtMost(x, y) && AtMost(y, x) ==> x == y
    {
      OrderFacts(x, y, z);
    }
  }

  lemma {:induction false} EnumerateOnce(s: set<string>)
    ensures Sorting.NoDuplicates(Enumerate(s)) && forall x :: x in Enumerate(s) <==> x in s
  {
    if s != {} {
      var x := Enumerate(s)[0];
      assert x in s && Enumerate(s)[1..] == Enumerate(s - {x});
      EnumerateOnce(s - {x});
    }
  }

  /** Sorting distinct names gives the listing of exactly those names. */
  lemma SortedNames(found: seq<string>)
    requires Sorting.NoDuplicates(found)
    ensures var ns := Sorting.Sort(found, AtMost);
            && (forall i, j :: 0 <= i < j < |ns| ==> Less(ns[i], ns[j]))
            && (forall n :: n in ns <==> n in found)
  {
    var ns := Sorting.Sort(found, AtMost);
    TextOrderIsTotal();
    Sorting.SortCorrect(found, AtMost);
    Sorting.NoDuplicatesPermuted(found, ns);
    forall i, j | 0 <= i < j < |ns| ensures Less(ns[i], ns[j]) {
      OrderFacts(ns[i], ns[j], "");
    }
    forall n ensures n in ns <==> n in found {
      assert n in ns <==> n in multiset(ns);
      assert n in found <==> n in multiset(found);
    }
  }

  lemma ListingLists(dir: Directory)
    ensures IsListing(Listing(dir), dir)
  {
    var s := set n | n in dir && IsBatchFile(dir, n);
    EnumerateOnce(s);
    SortedNames(Enumerate(s));
  }

  /** A directory has one listing. */
  lemma ListingUnique(ns: seq<string>, dir: Directory)
    requires IsListing(ns, dir)
    ensures ns == Listing(dir)
  {
    ListingLists(dir);
    SameMembersSameOrder(ns, Listing(dir));
  }

  function SizeOf(dir: Directory, ns: seq<string>): nat {
    if ns == [] then 0
    else (if ns[0] in dir && dir[ns[0]].Document? then dir[ns[0]].size else 0) + SizeOf(dir, ns[1..])
  }

  /** How many of the oldest batches have to go before incoming bytes fit. */
  function Evictions(dir: Directory, ns: seq<string>, incoming: nat, maxBytes: nat): (k: nat)
    ensures k <= |ns|
  {
    if SizeOf(dir, ns) + incoming <= maxBytes || ns == [] then 0 else 1 + Evictions(dir, ns[1..], incoming, maxBytes)
  }

  /** What stays is the longest suffix that fits. */
  lemma {:induction false} EvictionsLeaveLongestFit(dir: Directory, ns: seq<string>, incoming: nat, maxBytes: nat)
    requires incoming <= maxBytes
    ensures var k := Evictions(dir, ns, incoming, maxBytes);
            && SizeOf(dir, ns[k..]) + incoming <= maxBytes
            && forall j :: 0 <= j < k ==> SizeOf(dir, ns[j..]) + incoming > maxBytes
  {
    var k := Evictions(dir, ns, incoming, maxBytes);
    assert ns[0..] == ns;
    if k > 0 {
      EvictionsLeaveLongestFit(dir, ns[1..], incoming, maxBytes);
      assert ns[1..][k - 1..] == ns[k..];
      forall j | 0 <= j < k ensures SizeOf(dir, ns[j..]) + incoming > maxBytes {
        if j > 0 {
          assert ns[1..][j - 1..] == ns[j..];
        }
      }
    }
  }

  /** What the queue holds, oldest first. */
  ghost function Contents(dir: Directory): (items: seq<Option<Item>>)
    ensures |items| == |Listing(dir)|
  {
    ItemsOf(dir, Listing(dir))
  }

  function ItemsOf(dir: Directory, ns: seq<string>): (items: seq<Option<Item>>)
    ensures |items| == |ns|
  {
    if ns == [] then []
    else [if ns[0] in dir && dir[ns[0]].Document? then dir[ns[0]].item else None] + ItemsOf(dir, ns[1..])
  }

  lemma {:induction false} ItemsAppend(dir: Directory, a: seq<string>, b: seq<string>)
    ensures ItemsOf(dir, a + b) == ItemsOf(dir, a) + ItemsOf(dir, b)
    ensures SizeOf(dir, a + b) == SizeOf(dir, a) + SizeOf(dir, b)
  {
    if a == [] {
      assert a + b == b;
    } else {
      var t := a[1..] + b;
      ItemsAppend(dir, a[1..], b);
      assert a + b == [a[0]] + t;
      ItemsCons(dir, a[0], t);
      ItemsCons(dir, a[0], a[1..]);
      hide ItemsOf, SizeOf;
      assert a == [a[0]] + a[1..];
    }
  }

  lemma ItemsCons(dir: Directory, n: string, ns: seq<string>)
    ensures ItemsOf(dir, [n] + ns) == ItemsOf(dir, [n]) + ItemsOf(dir, ns)
    ensures SizeOf(dir, [n] + ns) == SizeOf(dir, [n]) + SizeOf(dir, ns)
  {
    assert ([n] + ns)[1..] == ns && [n][1..] == [];
  }

  /** Only the listed entries matter. */
  lemma {:induction false} ItemsFrame(d: Directory, e: Directory, ns: seq<string>)
    requires forall n :: n in ns ==> n in d && n in e && d[n] == e[n]
    ensures ItemsOf(d, ns) == ItemsOf(e, ns) && SizeOf(d, ns) == SizeOf(e, ns)
  {
    if ns != [] {
      ItemsFrame(d, e, ns[1..]);
    }
  }

  lemma {:induction false} ItemsDrop(dir: Directory, ns: seq<string>, k: nat)
    requires k <= |ns|
    ensures ItemsOf(dir, ns[k..]) == ItemsOf(dir, ns)[k..]
  {
    assert ns == ns[..k] + ns[k..];
    ItemsAppend(dir, ns[..k], ns[k..]);
  }

  ghost function Names(ns: seq<string>): set<string> {
    set n | n in ns
  }

  lemma SplitMembers(ns: seq<string>, k: nat)
    requires k <= |ns| && forall i, j :: 0 <= i < j < |ns| ==> Less(ns[i], ns[j])
    ensures forall n :: n in ns[k..] <==> n in ns && n !in ns[..k]
  {
    assert ns == ns[..k] + ns[k..];
    forall n | n in ns[..k] ensures n !in ns[k..] {
      var i :| 0 <= i < k && ns[..k][i] == n;
      LessIrreflexive(n);
      forall j | 0 <= j < |ns[k..]| ensures ns[k..][j] != n {
        assert ns[k..][j] == ns[k + j] && Less(ns[i], ns[k + j]);
      }
    }
  }

  /** Taking the oldest k files away leaves the rest of the listing. */
  lemma DropOldest(dir: Directory, k: nat)
    requires k <= |Listing(dir)|
    ensures Listing(dir - Names(Listing(dir)[..k])) == Listing(dir)[k..]
  {
    var ns := Listing(dir);
    var rest := ns[k..];
    var left := dir - Names(ns[..k]);
    ListingLists(dir);
    SplitMembers(ns, k);
    assert forall n :: n in rest <==> n in ns && n !in Names(ns[..k]);
    forall i, j | 0 <= i < j < |rest| ensures Less(rest[i], rest[j]) {
      assert rest[i] == ns[k + i] && rest[j] == ns[k + j];
    }
    ListingUnique(rest, left);
  }

  /** A file that is no batch file never shows. */
  lemma OtherFilesInvisible(dir: Directory, changed: Directory)
    requires forall n :: BatchName(n) ==> (n in dir <==> n in changed) && (n in dir ==> dir[n] == changed[n])
    ensures Listing(changed) == Listing(dir)
  {
    ListingLists(dir);
    ListingUnique(Listing(dir), changed);
  }

  /** A new batch file whose name is greater than all others goes last. */
  lemma AppendNewest(dir: Directory, name: string, e: Entry)
    requires BatchName(name) && e.Document?
    requires forall n :: n in Listing(dir) ==> Less(n, name)
    ensures Listing(dir[name := e]) == Listing(dir) + [name]
  {
    var ns := Listing(dir);
    ListingLists(dir);
    forall n ensures n in ns + [name] <==> IsBatchFile(dir[name := e], n) {
    }
    ListingUnique(ns + [name], dir[name := e]);
  }

  /** The last file of the listing has the greatest number. */
  lemma LastIsGreatest(dir: Directory, n: string)
    requires n in Listing(dir)
    ensures forall m :: m in Listing(dir) ==> BatchName(m)
    ensures var ns := Listing(dir); SeqOf(n) <= SeqOf(ns[|ns| - 1])
  {
    ListingLists(dir);
    var ns := Listing(dir);
    var i :| 0 <= i < |ns| && ns[i] == n;
    forall m | m in ns ensures BatchName(m) {
      assert IsBatchFile(dir, m);
    }
    assert ns[|ns| - 1] in ns;
    NameOrder(n, ns[|ns| - 1]);
  }
}

module AgentSpool {
  import opened Wrappers
  import opened Text
  import opened SpoolNames
  import opened SpoolDirectory
  import Sorting

  datatype PutError = NotJson | TooLarge | Full | IO

  datatype FrontResult = Oldest(name: string, item: Item) | Empty | Failed

  /** A spool over a directory. Every file-system call may fail: `faults` says,
      in order, which of the coming calls do, and calls past its end succeed. */
  class Spool {
    var dir: Directory
    var faults: seq<bool>
    const maxBytes: nat

    /** OpenSpool: whatever the directory already holds is the queue. */
    constructor (dir: Directory, maxBytes: nat, faults: seq<bool>)
      ensures this.dir == dir && this.maxBytes == maxBytes && this.faults == faults
    {
      this.dir, this.maxBytes, this.faults := dir, maxBytes, faults;
    }

    /** The outcome of one file-system call. */
    method Call() returns (ok: bool)
      modifies this`faults
      ensures |faults| <= |old(faults)|
      ensures ok <== old(faults) == []
      ensures !ok ==> |faults| < |old(faults)|
    {
      if faults == [] {
        return true;
      }
      ok := !faults[0];
      faults := faults[1..];
    }

    /** names: the batch files in text order. */
    method ListNames() returns (ok: bool, ns: seq<string>)
      modifies this`faults
      ensures |faults| <= |old(faults)| && (!ok ==> |faults| < |old(faults)|)
      ensures ok ==> ns == Listing(dir)
    {
      hide Listing, BatchName;
      ns := [];
      ok := Call();
      if !ok {
        return;
      }
      var found: seq<string> := [];
      var rest := dir.Keys;
      while rest != {}
        invariant |faults| <= |old(faults)|
        invariant rest <= dir.Keys && Sorting.NoDuplicates(found)
        invariant forall n :: n in found <==> n in dir.Keys - rest && IsBatchFile(dir, n)
        decreases rest
      {
        var n :| n in rest;
        assert n !in found;
        rest := rest - {n};
        var recognised := IsBatchName(n);
        if dir[n].Folder? || !recognised {
          continue;
        }
        found := found + [n];
      }
      ns := Sorting.Sort(found, AtMost);
      SortedNames(found);
      ListingUnique(ns, dir);
    }

    /** used: the bytes of the listed files. */
    method Used(ns: seq<string>) returns (ok: bool, total: nat)
      modifies this`faults
      ensures |faults| <= |old(faults)| && (!ok ==> |faults| < |old(faults)|)
      ensures ok ==> total == SizeOf(dir, ns)
    {
      total := 0;
      for i := 0 to |ns|
        invariant |faults| <= |old(faults)|
        invariant total == SizeOf(dir, ns[..i])
      {
        ok := Call();
        if !ok {
          return;
        }
        assert ns[..i + 1] == ns[..i] + [ns[i]];
        ItemsAppend(dir, ns[..i], [ns[i]]);
        total := total + (if ns[i] in dir && dir[ns[i]].Document? then dir[ns[i]].size else 0);
      }
      assert ns[..|ns|] == ns;
      ok := true;
    }

    /** Remove: a bad name is refused and a missing file is no error. */
    method Remove(name: string) returns (ok: bool)
      modifies this
      ensures |faults| <= |old(faults)|
      ensures ok ==> dir == old(dir) - {name}
      ensures !ok ==> dir == old(dir)
      ensures BatchName(name) && !ok ==> |faults| < |old(faults)|
    {
      if name == "" || '/' in name || Contains(name, "..") {
        if BatchName(name) {
          BatchNamesAreSafe(name);
        }
        return false;
      }
      ok := Call();
      if ok {
        dir := dir - {name};
      }
    }

    /** makeRoom: evicts from the front until the incoming bytes fit. */
    method MakeRoom(ns: seq<string>, incoming: nat) returns (err: Option<PutError>, evicted: nat)
      requires ns == Listing(dir) && incoming <= maxBytes
      modifies this
      ensures |faults| <= |old(faults)|
      ensures evicted <= |ns| && dir == old(dir) - Names(ns[..evicted])
      ensures err != Some(Full)
      ensures err.None? ==> evicted == Evictions(old(dir), ns, incoming, maxBytes)
      ensures err.Some? ==> evicted <= Evictions(old(dir), ns, incoming, maxBytes) && err == Some(IO) && |faults| < |old(faults)|
    {
      hide Listing, SizeOf, Evictions;
      evicted := 0;
      var ok, used := Used(ns);
      if !ok {
        return Some(IO), 0;
      }
      assert ns[0..] == ns;
      ghost var before := dir;
      ListingLists(before);
      while used + incoming > maxBytes && evicted < |ns|
        invariant evicted <= |ns| && |faults| <= |old(faults)|
        invariant dir == before - Names(ns[..evicted])
        invariant used == SizeOf(before, ns[evicted..])
        invariant evicted + Evictions(before, ns[evicted..], incoming, maxBytes) == Evictions(before, ns, incoming, maxBytes)
      {
        var oldest := ns[evicted];
        assert oldest in ns && IsBatchFile(before, oldest);
        SplitMembers(ns, evicted);
        EvictionStep(before, ns, evicted, incoming, maxBytes);
        ok := Call();
        if !ok {
          return Some(IO), evicted;
        }
        var size := dir[oldest].size;
        ok := Remove(oldest);
        if !ok {
          return Some(IO), evicted;
        }
        used := used - size;
        assert Names(ns[..evicted + 1]) == Names(ns[..evicted]) + {oldest} by {
          assert ns[..evicted + 1] == ns[..evicted] + [oldest];
        }
        evicted := evicted + 1;
      }
      EvictionsStop(before, ns, evicted, incoming, maxBytes);
      err := if used + incoming > maxBytes then Some(Full) else None;
    }

    /** Put. On success the queue is the longest suffix of the old one that fits
        and then the new item; on failure it is some suffix of the old one. */
    method Put(item: Item, size: nat, bodyIsJson: bool) returns (err: Option<PutError>, evicted: nat)
      modifies this
      ensures |faults| <= |old(faults)|
      ensures evicted <= |Listing(old(dir))| && err != Some(Full)
      ensures evicted <= Evictions(old(dir), Listing(old(dir)), size, maxBytes)
      ensures err == Some(NotJson) <==> !bodyIsJson
      ensures err == Some(TooLarge) <==> bodyIsJson && size > maxBytes
      ensures err == Some(IO) ==> |faults| < |old(faults)| || HasFolder(old(dir))
      ensures err.None? ==> evicted == Evictions(old(dir), Listing(old(dir)), size, maxBytes)
      ensures err.None? && NextSeq(old(dir), evicted) < NameLimit() ==>
                var name := FileName(NextSeq(old(dir), evicted));
                && Listing(dir) == Listing(old(dir))[evicted..] + [name]
                && Contents(dir) == old(Contents(dir))[evicted..] + [Some(item)]
                && SizeOf(dir, Listing(dir)) <= maxBytes
      ensures err.Some? || NextSeq(old(dir), evicted) >= NameLimit() ==>
                && Listing(dir) == Listing(old(dir))[evicted..]
                && Contents(dir) == old(Contents(dir))[evicted..]
    {
      hide Listing, Contents, BatchName, SizeOf, Evictions, FileName, NextSeq, HasFolder;
      ghost var before := dir;
      assert Listing(before)[0..] == Listing(before) && Contents(before)[0..] == Contents(before);
      if !bodyIsJson {
        return Some(NotJson), 0;
      }
      if size > maxBytes {
        return Some(TooLarge), 0;
      }
      var ok, ns := ListNames();
      if !ok {
        return Some(IO), 0;
      }
      err, evicted := MakeRoom(ns, size);
      ghost var roomy := dir;
      DropOldest(before, evicted);
      SuffixContents(before, roomy, evicted);
      NoNewFolders(before, Names(ns[..evicted]));
      if err.Some? {
        return;
      }
      EvictionsLeaveLongestFit(before, ns, size, maxBytes);
      ListingLists(before);
      ListingLists(roomy);
      if |ns| > 0 {
        ok := Call();
        if !ok || ns[|ns| - 1] !in dir {
          ok, ns := ListNames();
          if !ok {
            return Some(IO), evicted;
          }
        } else {
          LastSurvives(before, evicted);
        }
      }
      NextAfterSurvivors(before, evicted);
      var next := 1;
      if |ns| > 0 {
        assert ns[|ns| - 1] in ns;
        next := ParseSeq(ns[|ns| - 1]);
        next := next + 1;
      }
      assert next == NextSeq(before, evicted);
      ok := WriteThenRename(next, size, item);
      if !ok {
        return Some(IO), evicted;
      }
      NewestGoesLast(before, roomy, evicted, next, dir, size, item);
    }

    /** The file is written under a temporary name and renamed into place. */
    method WriteThenRename(next: nat, size: nat, item: Item) returns (ok: bool)
      modifies this
      ensures |faults| <= |old(faults)|
      ensures ok ==> dir == Renamed(old(dir), next, size, item)
      ensures !ok ==> Listing(dir) == Listing(old(dir)) && Contents(dir) == Contents(old(dir))
      ensures !ok ==> |faults| < |old(faults)| || HasFolder(old(dir))
    {
      hide Listing, Contents, BatchName, SizeOf, FileName;
      var final := FileName(next);
      var tmp := final + ".tmp";
      TemporaryNamesAreNotBatches(next);
      ok := Call();
      if !ok || (tmp in dir && dir[tmp].Folder?) {
        return false;
      }
      dir := dir[tmp := Document(size, Some(item))];
      OtherFilesInvisible(old(dir), dir);
      SameContents(old(dir), dir);
      ok := Call();
      if !ok || (final in dir && dir[final].Folder?) {
        return false;
      }
      dir := (dir - {tmp})[final := Document(size, Some(item))];
    }

    /** Front: moves unreadable files aside and returns the oldest readable item. */
    method Front() returns (r: FrontResult, skipped: nat)
      modifies this
      ensures |faults| <= |old(faults)|
      ensures skipped <= |Listing(old(dir))| && Listing(dir) == Listing(old(dir))[skipped..]
      ensures Contents(dir) == old(Contents(dir))[skipped..]
      ensures forall i :: 0 <= i < skipped ==> !Usable(Contents(old(dir))[i])
      ensures r.Failed? ==> |faults| < |old(faults)| || HasFolder(old(dir))
      ensures HasFolder(dir) ==> HasFolder(old(dir))
      ensures r.Empty? ==> Listing(dir) == []
      ensures r.Oldest? ==> Listing(dir) != [] && r.name == Listing(dir)[0] && r.name in dir
                            && Readable(dir[r.name]) && Contents(dir)[0] == Some(r.item)
    {
      hide Listing, Contents, BatchName, HasFolder;
      ghost var before := dir;
      ghost var all := Listing(before);
      skipped := 0;
      assert all[0..] == all && Contents(before)[0..] == Contents(before);
      ListingLists(before);
      while true
        invariant skipped <= |all| && |faults| <= |old(faults)|
        invariant Listing(dir) == all[skipped..] && Contents(dir) == Contents(before)[skipped..]
        invariant forall n :: n in all[skipped..] ==> n in dir && n in before && dir[n] == before[n]
        invariant forall i :: 0 <= i < skipped ==> !Usable(Contents(before)[i])
        invariant HasFolder(dir) ==> HasFolder(before)
        decreases |all| - skipped
      {
        var ok, ns := ListNames();
        if !ok {
          return Failed, skipped;
        }
        if |ns| == 0 {
          return Empty, skipped;
        }
        var name := ns[0];
        assert name == all[skipped] && name in all && name in all[skipped..] && IsBatchFile(before, name);
        ok := Call();
        if !ok {
          return Failed, skipped;
        }
        HeadContents(dir);
        assert Contents(dir)[0] == Contents(before)[skipped];
        if Readable(dir[name]) {
          return Oldest(name, dir[name].item.value), skipped;
        }
        var bad := name + ".bad";
        assert !BatchName(bad) by { BatchNameLength(name); BatchNameLength(bad); }
        ok := Call();
        FolderSeen(dir, bad);
        if !ok || (bad in dir && dir[bad].Folder?) {
          return Failed, skipped;
        }
        ghost var now := dir;
        dir := (dir - {name})[bad := dir[name]];
        SetAside(now, dir, name, bad);
        RenamedFile(now, name, bad);
        skipped := skipped + 1;
        assert all[skipped - 1..][1..] == all[skipped..];
        assert Contents(before)[skipped - 1..][1..] == Contents(before)[skipped..];
        forall n | n in all[skipped..] ensures n in dir && n in before && dir[n] == before[n] {
          SplitMembers(all, skipped);
          assert all[..skipped][skipped - 1] == name && n != name;
          assert n in all && IsBatchFile(before, n);
        }
      }
    }
  }

  lemma NoNewFolders(dir: Directory, gone: set<string>)
    ensures HasFolder(dir - gone) ==> HasFolder(dir)
  {
    if n :| n in dir - gone && (dir - gone)[n].Folder? {
      assert n in dir && dir[n].Folder?;
    }
  }

  lemma FolderSeen(dir: Directory, name: string)
    ensures name in dir && dir[name].Folder? ==> HasFolder(dir)
  {
  }

  lemma RenamedFile(dir: Directory, name: string, to: string)
    requires name in dir && dir[name].Document?
    ensures HasFolder((dir - {name})[to := dir[name]]) ==> HasFolder(dir)
  {
    var after := (dir - {name})[to := dir[name]];
    if n :| n in after && after[n].Folder? {
      assert n in dir && dir[n].Folder?;
    }
  }

  lemma EvictionStep(dir: Directory, ns: seq<string>, e: nat, incoming: nat, maxBytes: nat)
    requires e < |ns| && SizeOf(dir, ns[e..]) + incoming > maxBytes && IsBatchFile(dir, ns[e])
    ensures Evictions(dir, ns[e..], incoming, maxBytes) == 1 + Evictions(dir, ns[e + 1..], incoming, maxBytes)
    ensures SizeOf(dir, ns[e..]) == dir[ns[e]].size + SizeOf(dir, ns[e + 1..])
  {
    assert ns[e..][0] == ns[e] && ns[e..][1..] == ns[e + 1..];
  }

  lemma EvictionsStop(dir: Directory, ns: seq<string>, e: nat, incoming: nat, maxBytes: nat)
    requires e <= |ns| && incoming <= maxBytes && (SizeOf(dir, ns[e..]) + incoming <= maxBytes || e == |ns|)
    ensures Evictions(dir, ns[e..], incoming, maxBytes) == 0
    ensures SizeOf(dir, ns[e..]) + incoming <= maxBytes
  {
  }

  lemma DotDotStarts(s: string)
    ensures ".." <= s ==> |s| >= 2 && s[0] == '.' && s[1] == '.'
  {
    if ".." <= s {
      assert s[0] == ".."[0] && s[1] == ".."[1];
    }
  }

  lemma {:induction false} NoTwoDots(s: string)
    requires forall i :: 0 <= i < |s| - 1 ==> s[i] != '.' || s[i + 1] != '.'
    ensures !Contains(s, "..")
  {
    if s != "" {
      NoTwoDots(s[1..]);
      DotDotStarts(s);
    }
  }

  lemma BatchNamesAreSafe(name: string)
    requires BatchName(name)
    ensures name != "" && '/' !in name && !Contains(name, "..")
  {
    forall i | 0 <= i < |name| ensures name[i] != '/' && (name[i] == '.' ==> i == NameWidth) {
      if i < NameWidth {
        assert IsDigit(name[..NameWidth][i]);
      } else {
        assert name[i] == name[NameWidth..][i - NameWidth] == Suffix[i - NameWidth];
      }
    }
    NoTwoDots(name);
  }

  /** The number Put gives the new file after evicting k: one more than the
      greatest survivor, and 1 when nothing survives. */
  ghost function NextSeq(dir: Directory, k: nat): nat
    requires k <= |Listing(dir)|
  {
    var ns := Listing(dir);
    if k == |ns| || !BatchName(ns[|ns| - 1]) then 1 else SeqOf(ns[|ns| - 1]) + 1
  }

  /** The newest file carries the last number that fits a name. */
  ghost predicate NamesExhausted(dir: Directory) {
    var ns := Listing(dir);
    ns != [] && BatchName(ns[|ns| - 1]) && SeqOf(ns[|ns| - 1]) + 1 >= NameLimit()
  }

  lemma ExhaustedLater(dir: Directory, later: Directory, k: nat)
    requires k <= |Listing(dir)| && Listing(later) == Listing(dir)[k..]
    ensures NamesExhausted(later) ==> NamesExhausted(dir)
    ensures NextSeq(dir, k) >= NameLimit() ==> NamesExhausted(dir)
  {
    hide Listing, BatchName;
    LimitFits();
  }

  lemma NextAfterSurvivors(dir: Directory, k: nat)
    requires k <= |Listing(dir)|
    ensures var rest := Listing(dir)[k..];
            if rest == [] then NextSeq(dir, k) == 1
            else BatchName(rest[|rest| - 1]) && NextSeq(dir, k) == SeqOf(rest[|rest| - 1]) + 1
  {
    hide Listing;
    var ns := Listing(dir);
    ListingLists(dir);
    if k < |ns| {
      assert ns[|ns| - 1] in ns && ns[k..][|ns| - k - 1] == ns[|ns| - 1];
    }
  }

  function Renamed(dir: Directory, next: nat, size: nat, item: Item): Directory {
    var final := FileName(next);
    var tmp := final + ".tmp";
    (dir[tmp := Document(size, Some(item))] - {tmp})[final := Document(size, Some(item))]
  }

  lemma LastSurvives(dir: Directory, k: nat)
    requires k <= |Listing(dir)| && Listing(dir) != []
    requires Listing(dir)[|Listing(dir)| - 1] in dir - Names(Listing(dir)[..k])
    ensures k < |Listing(dir)|
  {
    hide Listing;
    var ns := Listing(dir);
    var last := ns[|ns| - 1];
    assert ns[..|ns|][|ns| - 1] == last;
    assert last in Names(ns[..|ns|]);
  }

  lemma TemporaryNamesAreNotBatches(n: nat)
    ensures !BatchName(FileName(n) + ".tmp")
  {
    assert |FileName(n)| >= NameWidth + |Suffix|;
  }

  lemma SameContents(d: Directory, e: Directory)
    requires forall n :: BatchName(n) ==> (n in d <==> n in e) && (n in d ==> d[n] == e[n])
    ensures Contents(e) == Contents(d) && SizeOf(e, Listing(e)) == SizeOf(d, Listing(d))
  {
    OtherFilesInvisible(d, e);
    ListingLists(d);
    ItemsFrame(d, e, Listing(d));
  }

  lemma SuffixContents(dir: Directory, left: Directory, k: nat)
    requires k <= |Listing(dir)| && left == dir - Names(Listing(dir)[..k])
    ensures Contents(left) == Contents(dir)[k..]
    ensures SizeOf(left, Listing(left)) == SizeOf(dir, Listing(dir)[k..])
  {
    DropOldest(dir, k);
    ListingLists(left);
    ListingLists(dir);
    ItemsFrame(left, dir, Listing(left));
    ItemsDrop(dir, Listing(dir), k);
  }

  lemma BatchNameLength(name: string)
    ensures BatchName(name) ==> |name| == NameWidth + |Suffix|
  {
  }

  lemma HeadContents(dir: Directory)
    requires Listing(dir) != []
    ensures Listing(dir)[0] in dir && dir[Listing(dir)[0]].Document?
    ensures Contents(dir)[0] == dir[Listing(dir)[0]].item
  {
    ListingLists(dir);
    assert Listing(dir)[0] in Listing(dir);
  }

  lemma SetAside(d: Directory, e: Directory, name: string, bad: string)
    requires Listing(d) != [] && name == Listing(d)[0] && bad == name + ".bad" && name in d
    requires e == (d - {name})[bad := d[name]]
    ensures Listing(e) == Listing(d)[1..] && Contents(e) == Contents(d)[1..]
  {
    var ns := Listing(d);
    ListingLists(d);
    assert name in ns && !BatchName(bad);
    var mid := d - {name};
    assert Names(ns[..1]) == {name} by {
      assert ns[..1] == [name];
    }
    DropOldest(d, 1);
    SuffixContents(d, mid, 1);
    OtherFilesInvisible(mid, e);
    SameContents(mid, e);
  }

  /** The renamed file is the new last entry, unless its number no longer fits
      the name and the file is never listed. */
  lemma NewestGoesLast(before: Directory, roomy: Directory, k: nat, next: nat, after: Directory, size: nat, item: Item)
    requires k <= |Listing(before)| && roomy == before - Names(Listing(before)[..k])
    requires next == NextSeq(before, k)
    requires after == Renamed(roomy, next, size, item)
    ensures Listing(roomy) == Listing(before)[k..]
    ensures next < NameLimit() ==>
              && Listing(after) == Listing(before)[k..] + [FileName(next)]
              && Contents(after) == Contents(before)[k..] + [Some(item)]
              && SizeOf(after, Listing(after)) == SizeOf(before, Listing(before)[k..]) + size
    ensures next >= NameLimit() ==>
              Listing(after) == Listing(before)[k..] && Contents(after) == Contents(before)[k..]
  {
    hide Listing, Contents, BatchName, SizeOf;
    var final := FileName(next);
    var mid := roomy - {final + ".tmp"};
    DropOldest(before, k);
    SuffixContents(before, roomy, k);
    TemporaryNamesAreNotBatches(next);
    OtherFilesInvisible(roomy, mid);
    SameContents(roomy, mid);
    NameRoundTrip(next);
    assert after == mid[final := Document(size, Some(item))];
    if next < NameLimit() {
      ListingLists(mid);
      forall n | n in Listing(mid) ensures Less(n, final) {
        BelowNext(before, k, n);
        NameOrder(n, final);
      }
      AddsOne(mid, final, size, item);
    } else {
      OtherFilesInvisible(mid, after);
      SameContents(mid, after);
    }
  }

  lemma AddsOne(dir: Directory, name: string, size: nat, item: Item)
    requires BatchName(name) && forall n :: n in Listing(dir) ==> Less(n, name)
    ensures var after := dir[name := Document(size, Some(item))];
            && Listing(after) == Listing(dir) + [name]
            && Contents(after) == Contents(dir) + [Some(item)]
            && SizeOf(after, Listing(after)) == SizeOf(dir, Listing(dir)) + size
  {
    hide Listing;
    var after := dir[name := Document(size, Some(item))];
    var ns := Listing(dir);
    ListingLists(dir);
    AppendNewest(dir, name, Document(size, Some(item)));
    LessIrreflexive(name);
    assert name !in ns;
    ItemsFrame(dir, after, ns);
    ItemsAppend(after, ns, [name]);
  }

  lemma BelowNext(dir: Directory, k: nat, n: string)
    requires k <= |Listing(dir)| && n in Listing(dir)[k..]
    ensures BatchName(n) && SeqOf(n) < NextSeq(dir, k)
  {
    var ns := Listing(dir);
    var i :| 0 <= i < |ns[k..]| && ns[k..][i] == n;
    assert ns[k + i] == n;
    LastIsGreatest(dir, n);
    assert ns[|ns| - 1] in ns;
  }

  /** The exception is real: after the last number a name can carry, Put
      succeeds and the batch is in no listing. */
  lemma LastNameLosesTheNext(size: nat, item: Item)
    ensures var full := map[FileName(NameLimit() - 1) := Document(size, Some(item))];
            Listing(full) == [FileName(NameLimit() - 1)] && NextSeq(full, 0) == NameLimit()
  {
    var name := FileName(NameLimit() - 1);
    var full: Directory := map[name := Document(size, Some(item))];
    NameRoundTrip(NameLimit() - 1);
    LimitFits();
    ListingUnique([name], full);
  }
}
