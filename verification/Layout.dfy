/**
 A package checked as one bundle: files laid out one after another with a byte between them, and
 diagnostics sent back to the file they fall in.
 */
module Layout {

  import opened Wrappers

  datatype Source = Source(path: string, text: string)

  datatype File = File(base: nat, text: string, path: string)

  datatype Record = Record(start: int, end: int, file: string, message: string)

  // ---- The layout ----

  /** The sources that are in the bundle: absent and empty ones are passed over. */
  function Bundled(pkg: seq<Option<Source>>): seq<Source> {
    if pkg == [] then []
    else
      var last := pkg[|pkg| - 1];
      Bundled(pkg[..|pkg| - 1]) + if last.None? || last.value.text == "" then [] else [last.value]
  }

  /** Each source followed by a newline. */
  function Bundle(sources: seq<Source>): string {
    if sources == [] then "" else Bundle(sources[..|sources| - 1]) + sources[|sources| - 1].text + "\n"
  }

  /** Each file is a source, based where its text starts in the bundle. */
  ghost predicate LaidOut(sources: seq<Source>, files: seq<File>) {
    && |files| == |sources|
    && (forall i :: 0 <= i < |files| ==>
          files[i] == File(|Bundle(sources[..i])|, sources[i].text, sources[i].path) && files[i].text != "")
  }

  lemma {:induction false} LaidOutNone()
    ensures LaidOut([], []) && Bundle([]) == ""
  {
  }

  lemma {:induction false} LaidOutMore(sources: seq<Source>, files: seq<File>, src: Source)
    requires LaidOut(sources, files) && src.text != ""
    ensures LaidOut(sources + [src], files + [File(|Bundle(sources)|, src.text, src.path)])
    ensures |Bundle(sources + [src])| == |Bundle(sources)| + |src.text| + 1
  {
    var more, n := sources + [src], |sources|;
    assert more[..n] == sources && Bundle(more) == Bundle(sources) + src.text + "\n";
    hide Bundle;
    forall i | 0 <= i < n
      ensures more[..i] == sources[..i] && more[i] == sources[i]
    {
    }
  }

  lemma {:induction false} BundledSnoc(pkg: seq<Option<Source>>, k: nat)
    requires k < |pkg|
    ensures Bundled(pkg[..k + 1]) == if pkg[k].None? || pkg[k].value.text == "" then Bundled(pkg[..k]) else Bundled(pkg[..k]) + [pkg[k].value]
  {
    assert pkg[..k + 1][..k] == pkg[..k];
  }

  lemma {:induction false} BundledMore(pkg: seq<Option<Source>>, p: Option<Source>)
    ensures Bundled(pkg + [p]) == Bundled(pkg) + if p.None? || p.value.text == "" then [] else [p.value]
  {
    assert (pkg + [p])[..|pkg|] == pkg;
  }

  /** Sources come one after another; missing and empty ones are passed over. */
  lemma {:induction false} BundledConcat(a: seq<Option<Source>>, p: Option<Source>, b: seq<Option<Source>>)
    ensures Bundled(a + [p] + b) == Bundled(a) + (if p.None? || p.value.text == "" then [] else [p.value]) + Bundled(b)
  {
    if b == [] {
      BundledMore(a, p);
      assert a + [p] + b == a + [p] && Bundled(b) == [];
    } else {
      hide Bundled;
      var front, last := b[..|b| - 1], b[|b| - 1];
      BundledConcat(a, p, front);
      BundledMore(a + [p] + front, last);
      BundledMore(front, last);
      assert a + [p] + b == a + [p] + front + [last] && b == front + [last];
    }
  }

  method PackageCheckInput(pkg: seq<Option<Source>>) returns (files: seq<File>)
    ensures LaidOut(Bundled(pkg), files)
  {
    hide LaidOut, Bundle, Bundled;
    files := [];
    var base := 0;
    LaidOutNone();
    assert Bundled(pkg[..0]) == [] by { BundledNone(pkg[..0]); }
    for k := 0 to |pkg|
      invariant LaidOut(Bundled(pkg[..k]), files)
      invariant base == |Bundle(Bundled(pkg[..k]))|
    {
      BundledSnoc(pkg, k);
      if pkg[k].None? {
        continue;
      }
      var src := pkg[k].value;
      if |src.text| == 0 {
        continue;
      }
      LaidOutMore(Bundled(pkg[..k]), files, src);
      files := files + [File(base, src.text, src.path)];
      base := base + |src.text| + 1;
    }
    assert pkg[..|pkg|] == pkg;
  }

  lemma {:induction false} BundledNone(pkg: seq<Option<Source>>)
    requires pkg == []
    ensures Bundled(pkg) == []
  {
  }

  function End(f: File): nat {
    f.base + |f.text|
  }

  /** The position just behind a file's last byte is the file's too. */
  predicate Owns(f: File, offset: int) {
    f.base <= offset <= End(f)
  }

  lemma {:induction false} BundleGrows(sources: seq<Source>, i: nat, j: nat)
    requires i <= j <= |sources|
    ensures Bundle(sources[..i]) <= Bundle(sources[..j])
    decreases j
  {
    if i < j {
      BundleGrows(sources, i, j - 1);
      assert sources[..j][..j - 1] == sources[..j - 1];
    }
  }

  lemma {:induction false} BundleNext(sources: seq<Source>, i: nat)
    requires i < |sources|
    ensures Bundle(sources[..i + 1]) == Bundle(sources[..i]) + sources[i].text + "\n"
  {
    assert sources[..i + 1][..i] == sources[..i];
  }

  /** The bundle holds each file's text at its base. */
  lemma {:induction false} FileInBundle(sources: seq<Source>, files: seq<File>, i: nat)
    requires LaidOut(sources, files) && i < |files|
    ensures End(files[i]) < |Bundle(sources)| && Bundle(sources)[files[i].base..End(files[i])] == files[i].text
  {
    BundleNext(sources, i);
    BundleGrows(sources, i + 1, |sources|);
    assert sources[..|sources|] == sources;
    var upto := Bundle(sources[..i + 1]);
    assert upto[files[i].base..End(files[i])] == files[i].text;
  }

  /** Files lie apart, with one byte in between. */
  lemma {:induction false} FilesApart(sources: seq<Source>, files: seq<File>, i: nat, j: nat)
    requires LaidOut(sources, files) && i < j < |files|
    ensures End(files[i]) < files[j].base && (j == i + 1 ==> files[j].base == End(files[i]) + 1)
  {
    BundleNext(sources, i);
    BundleGrows(sources, i + 1, j);
  }

  /** An offset has an owner exactly when it is from 0 up to the end of the last file, and then only one. */
  lemma {:induction false} OwnerIff(sources: seq<Source>, files: seq<File>, offset: int)
    requires LaidOut(sources, files) && files != []
    ensures (exists i :: 0 <= i < |files| && Owns(files[i], offset)) <==> 0 <= offset <= End(files[|files| - 1])
    ensures forall i, j :: 0 <= i < j < |files| ==> !(Owns(files[i], offset) && Owns(files[j], offset))
  {
    forall i, j | 0 <= i < j < |files|
      ensures End(files[i]) < files[j].base
    {
      FilesApart(sources, files, i, j);
    }
    if 0 <= offset <= End(files[|files| - 1]) {
      assert sources[..0] == [];
      var i := OwnerOf(sources, files, offset, |files| - 1);
    }
  }

  lemma {:induction false} OwnerOf(sources: seq<Source>, files: seq<File>, offset: int, n: nat) returns (i: nat)
    requires LaidOut(sources, files) && n < |files| && 0 <= offset <= End(files[n])
    ensures i <= n && Owns(files[i], offset)
  {
    assert sources[..0] == [];
    if files[n].base <= offset {
      i := n;
    } else {
      FilesApart(sources, files, n - 1, n);
      i := OwnerOf(sources, files, offset, n - 1);
    }
  }

  // ---- Sending records back ----

  /** The first file that owns the offset. */
  function FirstOwner(files: seq<File>, offset: int): (r: int)
    ensures -1 <= r < |files|
    ensures r >= 0 ==> Owns(files[r], offset)
    ensures forall i :: 0 <= i < |files| && (r < 0 || i < r) ==> !Owns(files[i], offset)
  {
    if files == [] then -1
    else
      var rest := FirstOwner(files[..|files| - 1], offset);
      if rest >= 0 then rest else if Owns(files[|files| - 1], offset) then |files| - 1 else -1
  }

  lemma {:induction false} FirstOwnerIs(files: seq<File>, offset: int, r: int)
    requires -1 <= r < |files| && (r >= 0 ==> Owns(files[r], offset))
    requires forall i :: 0 <= i < |files| && (r < 0 || i < r) ==> !Owns(files[i], offset)
    ensures r == FirstOwner(files, offset)
  {
  }

  method FindOwningFile(files: seq<File>, offset: int) returns (r: int)
    ensures r == FirstOwner(files, offset)
  {
    for i := 0 to |files|
      invariant forall j :: 0 <= j < i ==> !Owns(files[j], offset)
    {
      if offset >= files[i].base && offset <= files[i].base + |files[i].text| {
        FirstOwnerIs(files, offset, i);
        return i;
      }
    }
    return -1;
  }

  /** A record in its own file's terms. */
  function Relative(f: File, r: Record): Record {
    var start := if r.start - f.base < 0 then 0 else r.start - f.base;
    Record(start, if r.end - f.base < start then start else r.end - f.base, f.path, r.message)
  }

  /** The record back in the bundle's terms. */
  function Absolute(f: File, r: Record): Record {
    Record(r.start + f.base, r.end + f.base, r.file, r.message)
  }

  /** For an owned record the start is never clamped; it lands in the file and leads back. */
  lemma {:induction false} RelativeInverts(f: File, r: Record)
    requires Owns(f, r.start)
    ensures var rel := Relative(f, r);
      && 0 <= rel.start <= |f.text| && rel.start == r.start - f.base
      && Absolute(f, rel) == Record(r.start, if r.end < r.start then r.start else r.end, f.path, r.message)
  {
  }

  /** The records that go to file `i`, in their order. */
  function Bucket(files: seq<File>, records: seq<Record>, i: nat): seq<Record>
    requires i < |files|
  {
    if records == [] then []
    else
      var last := records[|records| - 1];
      Bucket(files, records[..|records| - 1], i)
      + if FirstOwner(files, last.start) == i then [Relative(files[i], last)] else []
  }

  /** What one record puts in the bucket. */
  function Drop(files: seq<File>, r: Record, i: nat): seq<Record>
    requires i < |files|
  {
    if FirstOwner(files, r.start) == i then [Relative(files[i], r)] else []
  }

  lemma {:induction false} BucketMore(files: seq<File>, records: seq<Record>, r: Record, i: nat)
    requires i < |files|
    ensures Bucket(files, records + [r], i) == Bucket(files, records, i) + Drop(files, r, i)
  {
    hide FirstOwner, Relative;
    assert (records + [r])[..|records|] == records;
  }

  lemma {:induction false} LastApart<T>(a: seq<T>, b: seq<T>)
    requires b != []
    ensures var front, last := b[..|b| - 1], b[|b| - 1]; a + b == a + front + [last] && b == front + [last]
  {
  }

  lemma {:induction false} JoinsOn<T>(a: seq<T>, b: seq<T>, c: seq<T>)
    ensures a + b + c == a + (b + c)
  {
  }

  /** A file's records keep their order. */
  lemma {:induction false} BucketConcat(files: seq<File>, a: seq<Record>, b: seq<Record>, i: nat)
    requires i < |files|
    ensures Bucket(files, a + b, i) == Bucket(files, a, i) + Bucket(files, b, i)
  {
    if b == [] {
      assert a + b == a && Bucket(files, b, i) == [];
    } else {
      hide Bucket, Drop;
      var front, last := b[..|b| - 1], b[|b| - 1];
      BucketConcat(files, a, front, i);
      BucketMore(files, a + front, last, i);
      BucketMore(files, front, last, i);
      LastApart(a, b);
      JoinsOn(Bucket(files, a, i), Bucket(files, front, i), Drop(files, last, i));
    }
  }

  /** The buckets of the first `n` files one after another. */
  function Delivered(files: seq<File>, records: seq<Record>, n: nat): seq<(nat, Record)>
    requires n <= |files|
  {
    if n == 0 then [] else Delivered(files, records, n - 1) + Tagged(n - 1, Bucket(files, records, n - 1))
  }

  ghost predicate Below(out: seq<(nat, Record)>, n: nat) {
    forall k :: 0 <= k < |out| ==> out[k].0 < n
  }

  /** Records come file by file, ... */
  lemma {:induction false} DeliveredAscends(files: seq<File>, records: seq<Record>, n: nat)
    requires n <= |files|
    ensures var out := Delivered(files, records, n);
      Below(out, n) && forall i, j :: 0 <= i < j < |out| ==> out[i].0 <= out[j].0
  {
    if n > 0 {
      DeliveredAscends(files, records, n - 1);
      var before, last := Delivered(files, records, n - 1), Tagged(n - 1, Bucket(files, records, n - 1));
      var out := before + last;
      assert Delivered(files, records, n) == out;
      hide Bucket, Tagged, Delivered;
      forall k | 0 <= k < |out|
        ensures out[k].0 == if k < |before| then before[k].0 else n - 1
      {
        assert k >= |before| ==> out[k] == last[k - |before|];
      }
    }
  }

  /** ... each file's in the order of its bucket. */
  lemma {:induction false} DeliveredByFile(files: seq<File>, records: seq<Record>, n: nat, i: nat)
    requires i < n <= |files|
    ensures OfFile(Delivered(files, records, n), i) == Tagged(i, Bucket(files, records, i))
  {
    var out, last := Delivered(files, records, n - 1), Tagged(n - 1, Bucket(files, records, n - 1));
    assert Delivered(files, records, n) == out + last;
    hide Bucket, OfFile, Delivered;
    OfFileConcat(out, last, i);
    OfFileAll(last, n - 1, i);
    if i < n - 1 {
      DeliveredByFile(files, records, n - 1, i);
    } else {
      DeliveredAscends(files, records, n - 1);
      OfFileNone(out, i);
    }
  }

  /** The records delivered to one file. */
  ghost function OfFile(out: seq<(nat, Record)>, i: nat): seq<(nat, Record)> {
    if out == [] then [] else OfFile(out[..|out| - 1], i) + if out[|out| - 1].0 == i then [out[|out| - 1]] else []
  }

  lemma {:induction false} OfFileConcat(a: seq<(nat, Record)>, b: seq<(nat, Record)>, i: nat)
    ensures OfFile(a + b, i) == OfFile(a, i) + OfFile(b, i)
  {
    if b == [] {
      assert a + b == a;
    } else {
      OfFileConcat(a, b[..|b| - 1], i);
      assert (a + b)[..|a + b| - 1] == a + b[..|b| - 1];
    }
  }

  lemma {:induction false} OfFileAll(out: seq<(nat, Record)>, n: nat, i: nat)
    requires forall k :: 0 <= k < |out| ==> out[k].0 == n
    ensures OfFile(out, i) == if i == n then out else []
  {
    if out != [] {
      OfFileAll(out[..|out| - 1], n, i);
      assert out == out[..|out| - 1] + [out[|out| - 1]];
    }
  }

  lemma {:induction false} OfFileNone(out: seq<(nat, Record)>, i: nat)
    requires Below(out, i)
    ensures OfFile(out, i) == []
  {
    if out != [] {
      assert out[|out| - 1].0 < i;
      OfFileNone(out[..|out| - 1], i);
    }
  }

  function Tagged(i: nat, rs: seq<Record>): (out: seq<(nat, Record)>)
    ensures |out| == |rs|
    ensures forall k :: 0 <= k < |rs| ==> out[k] == (i, rs[k])
  {
    seq(|rs|, k requires 0 <= k < |rs| => (i, rs[k]))
  }

  ghost predicate BucketsFit(files: seq<File>, records: seq<Record>, buckets: map<nat, seq<Record>>) {
    forall i :: 0 <= i < |files| ==> (if i in buckets then buckets[i] else []) == Bucket(files, records, i)
  }

  lemma {:induction false} BucketsMore(files: seq<File>, records: seq<Record>, r: Record, buckets: map<nat, seq<Record>>)
    requires BucketsFit(files, records, buckets)
    ensures var i := FirstOwner(files, r.start);
      BucketsFit(files, records + [r],
        if i < 0 then buckets else buckets[i := (if i in buckets then buckets[i] else []) + [Relative(files[i], r)]])
  {
  }

  method PackageCheckDiags(records: seq<Record>, files: seq<File>) returns (out: seq<(nat, Record)>)
    ensures out == Delivered(files, records, |files|)
  {
    hide FirstOwner, Bucket;
    var buckets: map<nat, seq<Record>> := map[];
    assert BucketsFit(files, records[..0], buckets) by { BucketsNone(files); }
    for k := 0 to |records|
      invariant BucketsFit(files, records[..k], buckets)
    {
      var rec := records[k];
      assert records[..k + 1] == records[..k] + [rec];
      BucketsMore(files, records[..k], rec, buckets);
      var idx := FindOwningFile(files, rec.start);
      if idx < 0 {
        continue;
      }
      var rel := rec.(file := files[idx].path, start := rec.start - files[idx].base, end := rec.end - files[idx].base);
      if rel.start < 0 {
        rel := rel.(start := 0);
      }
      if rel.end < rel.start {
        rel := rel.(end := rel.start);
      }
      buckets := buckets[idx := (if idx in buckets then buckets[idx] else []) + [rel]];
    }
    assert records[..|records|] == records;
    out := [];
    for i := 0 to |files|
      invariant out == Delivered(files, records, i)
    {
      if i in buckets {
        out := out + Tagged(i, buckets[i]);
      } else {
        assert Tagged(i, []) == [];
      }
    }
  }

  lemma {:induction false} BucketsNone(files: seq<File>)
    ensures BucketsFit(files, [], map[])
  {
  }

  // ---- Nothing lost, nothing twice ----

  function Owned(files: seq<File>, records: seq<Record>): seq<Record> {
    if records == [] then []
    else
      var last := records[|records| - 1];
      Owned(files, records[..|records| - 1]) + if FirstOwner(files, last.start) >= 0 then [last] else []
  }

  /** What a record delivered to file `i` is in the bundle's terms, file name included. */
  function Normal(files: seq<File>, r: Record): Record {
    var i := FirstOwner(files, r.start);
    if i < 0 then r else Record(r.start, if r.end < r.start then r.start else r.end, files[i].path, r.message)
  }

  function Normals(files: seq<File>, rs: seq<Record>): (out: seq<Record>)
    ensures |out| == |rs|
    ensures forall k :: 0 <= k < |rs| ==> out[k] == Normal(files, rs[k])
  {
    seq(|rs|, k requires 0 <= k < |rs| => Normal(files, rs[k]))
  }

  function Restored(files: seq<File>, out: seq<(nat, Record)>): (rs: seq<Record>)
    ensures |rs| == |out|
    ensures forall k :: 0 <= k < |out| && out[k].0 < |files| ==> rs[k] == Absolute(files[out[k].0], out[k].1)
  {
    seq(|out|, k requires 0 <= k < |out| => if out[k].0 < |files| then Absolute(files[out[k].0], out[k].1) else out[k].1)
  }

  lemma {:induction false} RestoredConcat(files: seq<File>, a: seq<(nat, Record)>, b: seq<(nat, Record)>)
    ensures Restored(files, a + b) == Restored(files, a) + Restored(files, b)
  {
  }

  /** One more record adds its own restored form to what its owner's bucket delivers. */
  lemma {:induction false} TaggedSnoc(files: seq<File>, records: seq<Record>, r: Record, i: nat)
    requires i < |files|
    ensures Restored(files, Tagged(i, Bucket(files, records + [r], i))) ==
      Restored(files, Tagged(i, Bucket(files, records, i))) + if FirstOwner(files, r.start) == i then [Normal(files, r)] else []
  {
  }

  /** One more record adds its own restored form to what the first `n` files deliver, if one of them owns it. */
  lemma {:induction false} DeliveredSnoc(files: seq<File>, records: seq<Record>, r: Record, n: nat)
    requires n <= |files|
    ensures multiset(Restored(files, Delivered(files, records + [r], n))) ==
      multiset(Restored(files, Delivered(files, records, n)))
      + if 0 <= FirstOwner(files, r.start) < n then multiset{Normal(files, r)} else multiset{}
  {
    hide Restored, Tagged, Bucket, FirstOwner, Normal;
    if n > 0 {
      var i := n - 1;
      DeliveredSnoc(files, records, r, i);
      TaggedSnoc(files, records, r, i);
      RestoredConcat(files, Delivered(files, records, i), Tagged(i, Bucket(files, records, i)));
      RestoredConcat(files, Delivered(files, records + [r], i), Tagged(i, Bucket(files, records + [r], i)));
    } else {
      assert Delivered(files, records + [r], n) == Delivered(files, records, n);
    }
  }

  lemma {:induction false} OwnedSnoc(files: seq<File>, front: seq<Record>, last: Record)
    ensures multiset(Normals(files, Owned(files, front + [last]))) ==
      multiset(Normals(files, Owned(files, front))) + if FirstOwner(files, last.start) >= 0 then multiset{Normal(files, last)} else multiset{}
  {
    hide FirstOwner, Normal;
    assert (front + [last])[..|front|] == front;
    if FirstOwner(files, last.start) >= 0 {
      assert Normals(files, Owned(files, front) + [last]) == Normals(files, Owned(files, front)) + [Normal(files, last)];
    } else {
      assert Owned(files, front) + [] == Owned(files, front);
    }
  }

  /** Delivered records, led back to the bundle, are exactly the owned ones. */
  lemma {:induction false} NothingLost(files: seq<File>, records: seq<Record>)
    ensures multiset(Restored(files, Delivered(files, records, |files|))) == multiset(Normals(files, Owned(files, records)))
  {
    hide Restored, Normals, Delivered, FirstOwner, Normal;
    if records == [] {
      DeliversNothing(files, |files|);
    } else {
      var front, last := records[..|records| - 1], records[|records| - 1];
      NothingLost(files, front);
      assert records == front + [last];
      DeliveredSnoc(files, front, last, |files|);
      OwnedSnoc(files, front, last);
    }
  }

  lemma {:induction false} DeliversNothing(files: seq<File>, n: nat)
    requires n <= |files|
    ensures Delivered(files, [], n) == []
  {
    if n > 0 {
      DeliversNothing(files, n - 1);
    }
  }

  /** In a laid-out bundle no record between its ends is dropped. */
  lemma {:induction false} AllOwned(sources: seq<Source>, files: seq<File>, records: seq<Record>)
    requires LaidOut(sources, files) && files != []
    requires forall k :: 0 <= k < |records| ==> 0 <= records[k].start <= End(files[|files| - 1])
    ensures Owned(files, records) == records
  {
    if records != [] {
      var front, last := records[..|records| - 1], records[|records| - 1];
      AllOwned(sources, files, front);
      OwnerIff(sources, files, last.start);
      assert records == front + [last];
    }
  }
}
