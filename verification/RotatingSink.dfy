/** The rotating log file sink: file names, rotation, and what a whole run leaves on disk. */
module RotatingSink {
  import opened Decimal
  import opened Subsequences

  datatype Option<T> = None | Some(value: T)

  /** A file is the list of the records written to it. */
  type File = seq<string>

  function Size(f: File): nat {
    if f == [] then 0 else Size(f[..|f| - 1]) + |f[|f| - 1]|
  }

  // File names

  /** rfind and find_last_of; -1 is npos */
  function LastIndexOf(s: string, c: char): (i: int)
    ensures -1 <= i < |s|
    ensures i >= 0 ==> s[i] == c
    ensures forall j :: i < j < |s| ==> s[j] != c
  {
    if s == [] then -1
    else if s[|s| - 1] == c then |s| - 1
    else LastIndexOf(s[..|s| - 1], c)
  }

  /** An extension begins at `k`: the last dot, with something before and behind it, in the last part of the path. */
  predicate ExtensionAt(name: string, k: nat) {
    && 0 < k < |name| - 1 && name[k] == '.' && name[k - 1] != '/'
    && forall j :: k < j < |name| ==> name[j] != '.' && name[j] != '/'
  }

  /** The name is cut where an extension begins, or not at all. */
  function SplitByExtension(name: string): (r: (string, string))
    ensures r.0 + r.1 == name
    ensures forall k :: 0 <= k < |name| ==> (ExtensionAt(name, k) <==> k == |r.0|)
  {
    var ext := LastIndexOf(name, '.');
    if ext == -1 || ext == 0 || ext == |name| - 1 then (name, "")
    else
      var folder := LastIndexOf(name, '/');
      if folder != -1 && folder >= ext - 1 then (name, "") else (name[..ext], name[ext..])
  }

  function CalcFilename(name: string, index: nat): string {
    if index == 0 then name
    else SplitByExtension(name).0 + "." + Digits(index) + SplitByExtension(name).1
  }

  lemma NoExtension(name: string)
    ensures |SplitByExtension(name).0| == |name| || ExtensionAt(name, |SplitByExtension(name).0|)
  {
  }

  /** The index goes in front of the extension, if there is one, and behind the name otherwise, in decimal. */
  lemma FilenameIs(name: string, index: nat)
    ensures CalcFilename(name, 0) == name
    ensures 0 < index ==>
      exists digits: string ::
        && digits != "" && digits[0] != '0' && (forall i :: 0 <= i < |digits| ==> IsDigit(digits[i]))
        && Value(digits) == index
        && (forall k :: 0 <= k < |name| && ExtensionAt(name, k) ==>
              CalcFilename(name, index) == name[..k] + "." + digits + name[k..])
        && ((forall k :: 0 <= k < |name| ==> !ExtensionAt(name, k)) ==>
              CalcFilename(name, index) == name + "." + digits)
  {
    if 0 < index {
      var digits, r := Digits(index), SplitByExtension(name);
      DigitsValue(index);
      DigitsLead(index);
      hide Digits, Value, ExtensionAt, SplitByExtension;
      forall k | 0 <= k < |name| && ExtensionAt(name, k)
        ensures CalcFilename(name, index) == name[..k] + "." + digits + name[k..]
      {
        assert r.0 == name[..k] && r.1 == name[k..];
      }
      if forall k :: 0 <= k < |name| ==> !ExtensionAt(name, k) {
        NoExtension(name);
        assert r.0 == name && r.1 == "";
        assert name + "." + digits + "" == name + "." + digits;
      }
    }
  }

  lemma SameMiddle(a: string, x: string, y: string, b: string)
    requires a + x + b == a + y + b
    ensures x == y
  {
    assert (a + x + b)[|a|..|a| + |x|] == x;
    assert (a + y + b)[|a|..|a| + |y|] == y;
  }

  /** Each index has its own file name. */
  lemma NamesDiffer(name: string, i: nat, j: nat)
    requires CalcFilename(name, i) == CalcFilename(name, j)
    ensures i == j
  {
    DigitsValue(i);
    DigitsValue(j);
    var (b, e) := SplitByExtension(name);
    assert |name| == |b| + |e|;
    if i > 0 && j > 0 { SameMiddle(b + ".", Digits(i), Digits(j), e); }
  }

  // Rotation and logging, on the files of index 0, 1, ...

  type Slots = s: seq<Option<File>> | |s| > 0 witness [None]

  /** The file at index `i` after a complete rotation. */
  function Shifted(s: Slots, i: nat): Option<File>
    requires 0 < i < |s|
  {
    if s[i - 1].Some? then s[i - 1] else if i == |s| - 1 then s[i] else None
  }

  /** rotate_. If renaming to index `failed` > 0 fails, that target is gone, and the lower files stay, but
      for the log file itself, which is truncated. */
  function Rotated(s: Slots, failed: nat := 0): Slots {
    seq(|s|, i requires 0 <= i < |s| =>
      if i == 0 then Some([]) else if i < failed then s[i] else if i == failed then None else Shifted(s, i))
  }

  predicate NeedsRotation(s: Slots, maxSize: nat, record: string)
    requires s[0].Some?
  {
    Size(s[0].value) + |record| > maxSize && Size(s[0].value) > 0
  }

  /** sink_it_, when renaming succeeds */
  function Logged(s: Slots, maxSize: nat, record: string): Slots
    requires s[0].Some?
  {
    if NeedsRotation(s, maxSize, record) then Rotated(s)[0 := Some([record])]
    else s[0 := Some(s[0].value + [record])]
  }

  function LoggedAll(s: Slots, maxSize: nat, records: seq<string>): (r: Slots)
    requires s[0].Some?
    ensures |r| == |s| && r[0].Some?
  {
    if records == [] then s
    else Logged(LoggedAll(s, maxSize, records[..|records| - 1]), maxSize, records[|records| - 1])
  }

  /** `renames(i, k)` is the system's answer to the k-th attempt at renaming to index `i`. From index `i` down, the
      first index for which there is something to rename and both attempts fail, or 0 */
  function Failure(s: Slots, renames: (nat, nat) -> bool, i: nat): (failed: nat)
    requires i < |s|
    ensures failed <= i
  {
    if i == 0 then 0
    else if s[i - 1].Some? && !renames(i, 0) && !renames(i, 1) then i
    else Failure(s, renames, i - 1)
  }

  /** A rotation succeeds exactly when each file that is there can be renamed, at the second attempt at the latest. */
  lemma {:induction false} FailureIff(s: Slots, renames: (nat, nat) -> bool, i: nat)
    requires i < |s|
    ensures Failure(s, renames, i) == 0
            <==> forall j :: 0 < j <= i && s[j - 1].Some? ==> renames(j, 0) || renames(j, 1)
  {
    if i > 0 { FailureIff(s, renames, i - 1); }
  }

  /** sink_it_, for every answer of the system. A record whose rotation fails is not written. */
  function Sunk(s: Slots, maxSize: nat, record: string, renames: (nat, nat) -> bool): Slots
    requires s[0].Some?
  {
    var failed := Failure(s, renames, |s| - 1);
    if NeedsRotation(s, maxSize, record) && failed > 0 then Rotated(s, failed) else Logged(s, maxSize, record)
  }

  /** A run of the sink; `renames(n)` are the system's answers while record `n` is logged. */
  function SunkAll(s: Slots, maxSize: nat, records: seq<string>, renames: nat -> (nat, nat) -> bool): (r: Slots)
    requires s[0].Some?
    ensures |r| == |s| && r[0].Some?
  {
    if records == [] then s
    else
      var n := |records| - 1;
      Sunk(SunkAll(s, maxSize, records[..n], renames), maxSize, records[n], renames(n))
  }

  ghost predicate Renaming(renames: (nat, nat) -> bool) { forall i: nat, k: nat :: renames(i, k) }

  /** When renames succeed, this is plain logging. */
  lemma {:induction false} SunkIsLogged(s: Slots, maxSize: nat, records: seq<string>,
                                        renames: nat -> (nat, nat) -> bool)
    requires s[0].Some? && forall n: nat :: Renaming(renames(n))
    ensures SunkAll(s, maxSize, records, renames) == LoggedAll(s, maxSize, records)
  {
    if records != [] {
      var n := |records| - 1;
      SunkIsLogged(s, maxSize, records[..n], renames);
      var m := LoggedAll(s, maxSize, records[..n]);
      FailureIff(m, renames(n), |m| - 1);
      assert Renaming(renames(n));
    }
  }

  function Contents(f: Option<File>): File { if f.Some? then f.value else [] }

  /** The files read from the highest index down. */
  function Retained(s: seq<Option<File>>): File {
    if s == [] then [] else Retained(s[1..]) + Contents(s[0])
  }

  /** If a file is there, so are those with lower indices. */
  predicate Contiguous(s: seq<Option<File>>) {
    forall i :: 0 < i < |s| && s[i].Some? ==> s[i - 1].Some?
  }

  predicate AllExist(s: seq<Option<File>>) { forall i :: 0 <= i < |s| ==> s[i].Some? }

  /** A file is within the limit, or nothing but its last record has any length. */
  predicate Bounded(f: File, maxSize: nat) {
    Size(f) <= maxSize || (f != [] && Size(f[..|f| - 1]) == 0)
  }

  predicate AllBounded(s: seq<Option<File>>, maxSize: nat) {
    forall i :: 0 <= i < |s| && s[i].Some? ==> Bounded(s[i].value, maxSize)
  }

  lemma {:induction false} RetainedSnoc(s: seq<Option<File>>, f: Option<File>)
    ensures Retained(s + [f]) == Contents(f) + Retained(s)
  {
    if s == [] {
      assert s + [f] == [f] && [f][1..] == [];
    } else {
      assert (s + [f])[1..] == s[1..] + [f];
      RetainedSnoc(s[1..], f);
      assert Contents(f) + Retained(s[1..]) + Contents(s[0]) == Contents(f) + (Retained(s[1..]) + Contents(s[0]));
    }
  }

  lemma RotatedShifts(s: Slots)
    requires s[0].Some? && Contiguous(s)
    ensures Rotated(s)[1..] == s[..|s| - 1] && Contiguous(Rotated(s))
  {
    var r := Rotated(s);
    forall i | 1 <= i < |r| ensures r[i] == s[i - 1] {
      if s[i - 1].None? { assert s[i].None?; }
    }
  }

  lemma RotatedAllExist(s: Slots)
    requires s[0].Some? && Contiguous(s) && s[|s| - 1].Some?
    ensures AllExist(Rotated(s))
  {
    RotatedShifts(s);
    AllThere(s, |s| - 1);
    var r := Rotated(s);
    forall i | 0 <= i < |r| ensures r[i].Some? { if i > 0 { assert r[i] == r[1..][i - 1]; } }
  }

  /** A rotation drops the oldest file, if all are there, and nothing else. */
  lemma RotatedRetains(s: Slots)
    requires s[0].Some? && Contiguous(s)
    ensures Contiguous(Rotated(s)) && Retained(s) == Contents(s[|s| - 1]) + Retained(Rotated(s)[1..])
    ensures s[|s| - 1].Some? ==> AllExist(Rotated(s))
  {
    hide Retained, Rotated, Contents, AllExist;
    var n := |s| - 1;
    RotatedShifts(s);
    RetainedSnoc(s[..n], s[n]);
    assert s == s[..n] + [s[n]];
    if s[n].Some? { RotatedAllExist(s); }
  }

  lemma {:induction false} AllThere(s: seq<Option<File>>, n: nat)
    requires n < |s| && Contiguous(s) && s[n].Some?
    ensures forall i :: 0 <= i <= n ==> s[i].Some?
  {
    if n > 0 { AllThere(s, n - 1); }
  }

  lemma {:induction false} RetainedConcat(a: seq<Option<File>>, b: seq<Option<File>>)
    ensures Retained(a + b) == Retained(b) + Retained(a)
  {
    if a == [] {
      assert a + b == b;
    } else {
      assert (a + b)[1..] == a[1..] + b;
      RetainedConcat(a[1..], b);
    }
  }

  lemma FailedPieces(s: Slots, failed: nat)
    requires Contiguous(s) && 0 < failed < |s| && s[failed - 1].Some?
    ensures s == [s[0]] + s[1..failed] + s[failed..|s| - 1] + [s[|s| - 1]]
    ensures Rotated(s, failed) == [Some([])] + s[1..failed] + [None] + s[failed..|s| - 1]
  {
    var r := Rotated(s, failed);
    forall i | failed < i < |s| ensures r[i] == s[i - 1] {
      if s[i - 1].None? { assert s[i].None?; }
    }
  }

  lemma RetainedFour(a: seq<Option<File>>, b: seq<Option<File>>, c: seq<Option<File>>, d: seq<Option<File>>)
    ensures Retained(a + b + c + d) == Retained(d) + (Retained(c) + (Retained(b) + Retained(a)))
  {
    hide Retained;
    RetainedConcat(a + b + c, d);
    RetainedConcat(a + b, c);
    RetainedConcat(a, b);
  }

  lemma Regroup(a: File, b: File, c: File, d: File)
    ensures a + (b + (c + d)) == a + (b + ([] + (c + []))) + d
  {
    assert c + [] == c && [] + c == c;
    assert a + (b + (c + d)) == a + (b + c) + d;
  }

  lemma PiecesLose(first: Option<File>, low: seq<Option<File>>, high: seq<Option<File>>, last: Option<File>)
    ensures Retained([first] + low + high + [last])
         == Contents(last) + Retained([Some([])] + low + [None] + high) + Contents(first)
  {
    hide Retained;
    RetainedFour([first], low, high, [last]);
    RetainedFour([Some([])], low, [None], high);
    RetainedOne(first);
    RetainedOne(last);
    RetainedOne(Some([]));
    RetainedOne(None);
    Regroup(Contents(last), Retained(high), Retained(low), Contents(first));
  }

  /** A rotation that fails loses the newest file as well as the oldest. */
  lemma FailedRotationLoses(s: Slots, failed: nat)
    requires Contiguous(s) && 0 < failed < |s| && s[failed - 1].Some?
    ensures Retained(s) == Contents(s[|s| - 1]) + Retained(Rotated(s, failed)) + Contents(s[0])
  {
    hide *;
    FailedPieces(s, failed);
    PiecesLose(s[0], s[1..failed], s[failed..|s| - 1], s[|s| - 1]);
  }

  lemma RetainedOne(f: Option<File>)
    ensures Retained([f]) == Contents(f)
  {
    assert [f][1..] == [] && Retained([]) == [];
  }

  lemma LoggedRetains(s: Slots, maxSize: nat, record: string) returns (dropped: File)
    requires s[0].Some? && Contiguous(s)
    ensures var t := Logged(s, maxSize, record);
            && Contiguous(t) && Retained(s) + [record] == dropped + Retained(t)
            && (AllExist(s) || dropped != [] ==> AllExist(t))
  {
    hide Retained;
    var t := Logged(s, maxSize, record);
    if NeedsRotation(s, maxSize, record) {
      RotatedRetains(s);
      dropped := Contents(s[|s| - 1]);
      RetainedCons(t);
      assert t[1..] == Rotated(s)[1..];
      assert dropped + Retained(t[1..]) + [record] == dropped + (Retained(t[1..]) + [record]);
    } else {
      dropped := [];
      RetainedCons(s);
      RetainedCons(t);
      assert t[1..] == s[1..];
      assert Retained(s[1..]) + (s[0].value + [record]) == Retained(s[1..]) + s[0].value + [record];
    }
  }

  lemma RetainedCons(s: Slots)
    ensures Retained(s) == Retained(s[1..]) + Contents(s[0])
  {
  }

  lemma LoggedBounded(s: Slots, maxSize: nat, record: string)
    requires s[0].Some? && Contiguous(s) && AllBounded(s, maxSize)
    ensures AllBounded(Logged(s, maxSize, record), maxSize)
  {
    if NeedsRotation(s, maxSize, record) {
      RotatedShifts(s);
      var t := Logged(s, maxSize, record);
      forall i | 0 < i < |t| ensures t[i] == s[i - 1] { assert t[i] == Rotated(s)[1..][i - 1]; }
      assert [record][..0] == [];
    } else {
      var f := s[0].value;
      assert (f + [record])[..|f|] == f;
    }
  }

  /** No file was left too early: it is not empty, and the record that begins the next one would not have fitted. */
  predicate Packed(s: seq<Option<File>>, maxSize: nat) {
    forall i :: 0 < i < |s| && s[i].Some? ==>
      && s[i - 1].Some? && s[i - 1].value != []
      && 0 < Size(s[i].value) && maxSize < Size(s[i].value) + |s[i - 1].value[0]|
  }

  lemma LoggedPacked(s: Slots, maxSize: nat, record: string)
    requires s[0].Some? && Packed(s, maxSize)
    ensures Packed(Logged(s, maxSize, record), maxSize)
  {
    hide Size;
    var t := Logged(s, maxSize, record);
    if NeedsRotation(s, maxSize, record) {
      assert Contiguous(s);
      RotatedShifts(s);
      forall i | 0 < i < |t| ensures t[i] == s[i - 1] { assert t[i] == Rotated(s)[1..][i - 1]; }
    }
  }

  lemma {:induction false} LoggedAllPacked(s: Slots, maxSize: nat, records: seq<string>)
    requires s[0].Some? && Packed(s, maxSize)
    ensures Packed(LoggedAll(s, maxSize, records), maxSize)
  {
    hide Packed, Logged;
    if records != [] {
      var n := |records| - 1;
      LoggedAllPacked(s, maxSize, records[..n]);
      LoggedPacked(LoggedAll(s, maxSize, records[..n]), maxSize, records[n]);
    }
  }

  /** Logging one record, for every answer of the system. One that fits, or finds the log file without any bytes, is
      appended and nothing else changes. Otherwise, if each file that is there can be renamed, all move up by one and
      the record begins the log file; if not, the record is lost, and of the files exactly the newest and the oldest. */
  lemma SunkCases(s: Slots, maxSize: nat, record: string, renames: (nat, nat) -> bool)
    requires s[0].Some? && Contiguous(s)
    ensures var t := Sunk(s, maxSize, record, renames);
            if Size(s[0].value) + |record| <= maxSize || Size(s[0].value) == 0 then
              t == s[0 := Some(s[0].value + [record])]
            else if forall j :: 0 < j < |s| && s[j - 1].Some? ==> renames(j, 0) || renames(j, 1) then
              t == [Some([record])] + s[..|s| - 1]
            else
              t[0] == Some([]) && Retained(s) == Contents(s[|s| - 1]) + Retained(t) + s[0].value
  {
    hide Size, Failure, Retained, Rotated;
    if NeedsRotation(s, maxSize, record) {
      var failed := Failure(s, renames, |s| - 1);
      FailureIff(s, renames, |s| - 1);
      if failed > 0 {
        FailureThere(s, renames, |s| - 1);
        FailedRotationLoses(s, failed);
        FirstOfRotated(s, failed);
      } else {
        RotatedShifts(s);
        var t := Logged(s, maxSize, record);
        assert t == [t[0]] + Rotated(s)[1..];
      }
    }
  }

  lemma {:induction false} FailureThere(s: Slots, renames: (nat, nat) -> bool, i: nat)
    requires i < |s| && Failure(s, renames, i) > 0
    ensures s[Failure(s, renames, i) - 1].Some?
  {
    if i > 0 && Failure(s, renames, i) < i { FailureThere(s, renames, i - 1); }
  }

  /** Over a whole run: what the files hold, read from the highest index down, is a suffix of everything
      logged, and nothing is dropped before all the files exist. */
  lemma {:induction false} LogRetention(s: Slots, maxSize: nat, records: seq<string>) returns (dropped: File)
    requires s[0].Some? && Contiguous(s)
    ensures var t := LoggedAll(s, maxSize, records);
            && Contiguous(t) && Retained(s) + records == dropped + Retained(t)
            && (AllExist(s) || dropped != [] ==> AllExist(t))
            && (AllBounded(s, maxSize) ==> AllBounded(t, maxSize))
  {
    hide Retained, AllExist, AllBounded, Logged;
    if records == [] {
      dropped := [];
      assert Retained(s) + [] == Retained(s) && dropped + Retained(s) == Retained(s);
      assert dropped == [];
    } else {
      var before, record := records[..|records| - 1], records[|records| - 1];
      dropped := LogRetention(s, maxSize, before);
      var m := LoggedAll(s, maxSize, before);
      var more := LoggedRetains(m, maxSize, record);
      if AllBounded(m, maxSize) { LoggedBounded(m, maxSize, record); }
      assert Retained(s) + records == Retained(s) + before + [record];
      assert dropped + Retained(m) + [record] == dropped + (Retained(m) + [record]);
      assert dropped + (more + Retained(Logged(m, maxSize, record)))
             == dropped + more + Retained(Logged(m, maxSize, record));
      dropped := dropped + more;
    }
  }

  // Runs in which renames may fail

  lemma RetainedFrom(s: seq<Option<File>>, i: nat)
    requires i < |s|
    ensures Retained(s[i..]) == Retained(s[i + 1..]) + Contents(s[i])
  {
    assert s[i..][1..] == s[i + 1..] && s[i..][0] == s[i];
  }

  lemma RetainedEmpty(s: seq<Option<File>>)
    ensures Retained(s[|s|..]) == []
  {
  }

  /** One file of a rotation after another: above the failed index it is the one below or nothing, */
  lemma MovedUp(a: File, b: File, f: Option<File>, g: Option<File>)
    requires Subsequence(a, b) && (g == f || g.None?)
    ensures Subsequence(a + Contents(g), b + Contents(f))
  {
    SubsequenceMore(a, b, Contents(f));
    if g.None? { assert a + Contents(g) == a; }
  }

  /** the last one may stay instead, */
  lemma LastOne(f: Option<File>, g: Option<File>)
    ensures Subsequence(Contents(f), [] + Contents(f) + Contents(g))
    ensures Subsequence(Contents(g), [] + Contents(f) + Contents(g))
  {
    SubsequenceSelf(Contents(f));
    SubsequenceMore(Contents(f), Contents(f), Contents(g));
    SubsequenceNone(Contents(f));
    SubsequenceMore([], Contents(f), Contents(g));
    assert [] + Contents(f) == Contents(f) && [] + Contents(g) == Contents(g);
  }

  /** and all together they are some of what there was, in the same order. */
  lemma {:induction false} RotatedKeeps(s: Slots, failed: nat, i: nat)
    requires failed < |s| && 0 < i <= |s|
    ensures Subsequence(Retained(Rotated(s, failed)[i..]), Retained(s[if failed < i then i - 1 else i..]))
    decreases |s| - i
  {
    hide Retained, Subsequence, Contents;
    var t := Rotated(s, failed);
    if i == |s| {
      RetainedEmpty(t);
      SubsequenceNone(Retained(s[if failed < i then i - 1 else i..]));
    } else {
      RotatedKeeps(s, failed, i + 1);
      RetainedFrom(t, i);
      RetainedFrom(s, i);
      if failed < i { RetainedFrom(s, i - 1); }
      if failed < i && i == |s| - 1 {
        RetainedEmpty(t);
        RetainedEmpty(s);
        LastOne(s[i], s[i - 1]);
        assert [] + Contents(t[i]) == Contents(t[i]);
      } else if failed < i {
        MovedUp(Retained(t[i + 1..]), Retained(s[i..]), s[i - 1], t[i]);
      } else if failed == i {
        MovedUp(Retained(t[i + 1..]), Retained(s[i..]), None, None);
        NoFile();
        assert Retained(t[i + 1..]) + [] == Retained(t[i + 1..]) && Retained(s[i..]) + [] == Retained(s[i..]);
      } else {
        MovedUp(Retained(t[i + 1..]), Retained(s[i + 1..]), s[i], t[i]);
      }
    }
  }

  lemma NoFile()
    ensures Contents(None) == [] && Contents(Some([])) == []
  {
  }

  /** What a rotation leaves behind the log file, failed or not */
  lemma RotationKeeps(s: Slots, failed: nat)
    requires failed < |s|
    ensures Subsequence(Retained(Rotated(s, failed)[1..]), Retained(s))
    ensures Retained(Rotated(s, failed)) == Retained(Rotated(s, failed)[1..])
  {
    hide Retained, Subsequence, Contents;
    var t := Rotated(s, failed);
    RotatedKeeps(s, failed, 1);
    RetainedFrom(s, 0);
    RetainedFrom(t, 0);
    NoFile();
    assert s[0..] == s && t[0..] == t && Retained(t[1..]) + [] == Retained(t[1..]);
    if failed > 0 { SubsequenceMore(Retained(t[1..]), Retained(s[1..]), Contents(s[0])); }
  }

  lemma SunkKeeps(s: Slots, maxSize: nat, record: string, renames: (nat, nat) -> bool)
    requires s[0].Some?
    ensures Subsequence(Retained(Sunk(s, maxSize, record, renames)), Retained(s) + [record])
  {
    hide Retained, Subsequence, Rotated, Failure, Size;
    var t := Sunk(s, maxSize, record, renames);
    var failed := Failure(s, renames, |s| - 1);
    RetainedCons(t);
    RetainedCons(s);
    if NeedsRotation(s, maxSize, record) && failed > 0 {
      RotationKeeps(s, failed);
      SubsequenceMore(Retained(t), Retained(s), [record]);
    } else if NeedsRotation(s, maxSize, record) {
      RotationKeeps(s, 0);
      assert t[1..] == Rotated(s)[1..];
      SubsequenceMore(Retained(t[1..]), Retained(s), [record]);
    } else {
      assert t[1..] == s[1..];
      assert Retained(s[1..]) + (s[0].value + [record]) == Retained(s[1..]) + s[0].value + [record];
      SubsequenceSelf(Retained(t));
    }
  }

  /** In every run, whatever renames fail: what the files hold, read from the highest index down, is some of what
      they held and of what was logged, in that order, and nothing twice. */
  lemma {:induction false} SunkInOrder(s: Slots, maxSize: nat, records: seq<string>,
                                       renames: nat -> (nat, nat) -> bool)
    requires s[0].Some?
    ensures Subsequence(Retained(SunkAll(s, maxSize, records, renames)), Retained(s) + records)
  {
    hide Retained, Subsequence, Sunk;
    if records == [] {
      SubsequenceSelf(Retained(s));
      assert Retained(s) + [] == Retained(s);
    } else {
      var n := |records| - 1;
      var m, all := SunkAll(s, maxSize, records[..n], renames), Retained(s) + records[..n];
      SunkInOrder(s, maxSize, records[..n], renames);
      SunkKeeps(m, maxSize, records[n], renames(n));
      SubsequenceMore(Retained(m), all, [records[n]]);
      SubsequenceTransitive(Retained(Sunk(m, maxSize, records[n], renames(n))),
                            Retained(m) + [records[n]], all + [records[n]]);
      assert all + [records[n]] == Retained(s) + records;
    }
  }

  /** The files of a new log. */
  function Fresh(maxFiles: nat): Slots {
    [Some([])] + seq(maxFiles, _ => None)
  }

  lemma {:induction false} RetainedNone(s: seq<Option<File>>)
    requires forall i :: 0 <= i < |s| ==> s[i] == None
    ensures Retained(s) == []
  {
    if s != [] { RetainedNone(s[1..]); }
  }

  /** Starting with no log files: a suffix of everything logged is on disk, each file within the limit or of
      one record, none of them left before the next record did not fit, and the last record is always there. */
  lemma FreshLogRetention(maxFiles: nat, maxSize: nat, records: seq<string>) returns (dropped: File)
    ensures var t := LoggedAll(Fresh(maxFiles), maxSize, records);
            && records == dropped + Retained(t) && AllBounded(t, maxSize) && Packed(t, maxSize)
            && (dropped != [] ==> AllExist(t))
            && (records != [] ==> t[0].value != [] && t[0].value[|t[0].value| - 1] == records[|records| - 1])
  {
    var s := Fresh(maxFiles);
    RetainedNone(s[1..]);
    assert Retained(s) == [] && Size([]) == 0;
    LoggedAllPacked(s, maxSize, records);
    dropped := LogRetention(s, maxSize, records);
    hide Packed;
    assert [] + records == records;
  }

  // The sink itself, on a file system

  function Look(files: map<string, File>, base: string, i: nat): Option<File> {
    var name := CalcFilename(base, i);
    if name in files then Some(files[name]) else None
  }

  function LookAll(files: map<string, File>, base: string, maxFiles: nat): Slots {
    seq(maxFiles + 1, i requires 0 <= i <= maxFiles => Look(files, base, i))
  }

  ghost predicate Own(base: string, maxFiles: nat, name: string) {
    exists i :: 0 <= i <= maxFiles && CalcFilename(base, i) == name
  }

  /** Files that are not the sink's stay as they are. */
  ghost predicate OthersKept(before: map<string, File>, after: map<string, File>, base: string, maxFiles: nat) {
    forall name :: !Own(base, maxFiles, name) ==>
      (name in before <==> name in after) && (name in before && name in after ==> before[name] == after[name])
  }

  function Renamed(files: map<string, File>, src: string, target: string): map<string, File>
    requires src in files
  {
    (files - {target, src})[target := files[src]]
  }

  lemma RenamedLook(files: map<string, File>, base: string, i: nat, j: nat)
    requires 0 < i && CalcFilename(base, i - 1) in files
    ensures var after := Renamed(files, CalcFilename(base, i - 1), CalcFilename(base, i));
            Look(after, base, j)
            == if j == i then Look(files, base, i - 1) else if j == i - 1 then None else Look(files, base, j)
  {
    if CalcFilename(base, i) == CalcFilename(base, j) { NamesDiffer(base, i, j); }
    if CalcFilename(base, i - 1) == CalcFilename(base, j) { NamesDiffer(base, i - 1, j); }
    if CalcFilename(base, i) == CalcFilename(base, i - 1) { NamesDiffer(base, i, i - 1); }
    hide CalcFilename;
  }

  lemma ErasedLook(files: map<string, File>, base: string, i: nat, j: nat)
    ensures Look(files - {CalcFilename(base, i)}, base, j) == if j == i then None else Look(files, base, j)
  {
    if CalcFilename(base, i) == CalcFilename(base, j) { NamesDiffer(base, i, j); }
    hide CalcFilename;
  }

  lemma WrittenLook(files: map<string, File>, base: string, f: File, j: nat)
    ensures Look(files[base := f], base, j) == if j == 0 then Some(f) else Look(files, base, j)
  {
    if CalcFilename(base, 0) == CalcFilename(base, j) { NamesDiffer(base, 0, j); }
    assert CalcFilename(base, 0) == base;
    hide CalcFilename;
  }

  /** Renaming has been done, where there was something to rename, for all indices above `i`. */
  ghost predicate Progress(before: Slots, files: map<string, File>, base: string, i: nat)
    requires i < |before|
  {
    forall j :: 0 <= j < |before| ==>
      Look(files, base, j)
      == if j > i then Shifted(before, j) else if j == i && i < |before| - 1 then None else before[j]
  }

  lemma ProgressStep(before: Slots, files: map<string, File>, base: string, i: nat)
    requires 0 < i < |before| && Progress(before, files, base, i)
    ensures var src := CalcFilename(base, i - 1);
            && Progress(before, if src in files then Renamed(files, src, CalcFilename(base, i)) else files, base, i - 1)
            && (src in files <==> before[i - 1].Some?)
  {
    hide CalcFilename;
    if CalcFilename(base, i - 1) in files {
      forall j | 0 <= j < |before| { RenamedLook(files, base, i, j); }
    }
    assert Look(files, base, i - 1) == before[i - 1];
  }

  lemma ProgressDone(before: Slots, files: map<string, File>, base: string)
    requires Progress(before, files, base, 0)
    ensures LookAll(files[base := []], base, |before| - 1) == Rotated(before)
  {
    forall j | 0 <= j < |before| { WrittenLook(files, base, [], j); }
  }

  lemma ProgressFailed(before: Slots, files: map<string, File>, base: string, i: nat)
    requires 0 < i < |before| && Progress(before, files, base, i)
    ensures LookAll((files - {CalcFilename(base, i)})[base := []], base, |before| - 1) == Rotated(before, i)
  {
    var erased := files - {CalcFilename(base, i)};
    hide CalcFilename;
    forall j | 0 <= j < |before| ensures Look(erased[base := []], base, j) == Rotated(before, i)[j] {
      WrittenLook(erased, base, [], j);
      ErasedLook(files, base, i, j);
    }
  }

  lemma StartProgress(before: Slots, files: map<string, File>, base: string)
    requires before == LookAll(files, base, |before| - 1)
    ensures Progress(before, files, base, |before| - 1) && OthersKept(files, files, base, |before| - 1)
  {
  }

  lemma RenameOthers(files: map<string, File>, base: string, maxFiles: nat, i: nat)
    requires 0 < i <= maxFiles && CalcFilename(base, i - 1) in files
    ensures OthersKept(files, Renamed(files, CalcFilename(base, i - 1), CalcFilename(base, i)), base, maxFiles)
    ensures OthersKept(files, (files - {CalcFilename(base, i)})[base := []], base, maxFiles)
  {
    assert Own(base, maxFiles, CalcFilename(base, i - 1)) && Own(base, maxFiles, CalcFilename(base, i));
    TruncateOthers(files, base, maxFiles);
    hide CalcFilename;
  }

  lemma TruncateOthers(files: map<string, File>, base: string, maxFiles: nat)
    ensures Own(base, maxFiles, base) && OthersKept(files, files[base := []], base, maxFiles)
  {
    assert CalcFilename(base, 0) == base;
  }

  lemma OthersChain(a: map<string, File>, b: map<string, File>, base: string, maxFiles: nat)
    requires OthersKept(a, b, base, maxFiles)
    ensures forall c :: OthersKept(b, c, base, maxFiles) ==> OthersKept(a, c, base, maxFiles)
  {
    hide CalcFilename;
  }

  function Opened(files: map<string, File>, name: string): (r: map<string, File>)
    ensures name in r
  {
    if name in files then files else files[name := []]
  }

  /** With no log files there, the sink starts with a new log. */
  lemma OpenedFresh(files: map<string, File>, base: string, maxFiles: nat)
    requires forall name <- files :: !Own(base, maxFiles, name)
    ensures LookAll(Opened(files, base), base, maxFiles) == Fresh(maxFiles)
  {
    forall j | 0 <= j <= maxFiles
      ensures CalcFilename(base, j) !in files { assert Own(base, maxFiles, CalcFilename(base, j)); }
    assert CalcFilename(base, 0) == base;
    forall j | 0 <= j <= maxFiles { WrittenLook(files, base, [], j); }
  }

  class Disk {
    var files: map<string, File>
  }

  class RotatingFileSink {
    const baseFilename: string
    const maxSize: nat
    const maxFiles: nat
    const disk: Disk
    var currentSize: nat

    ghost function Files(): (s: Slots)
      reads disk
      ensures |s| == maxFiles + 1
    {
      LookAll(disk.files, baseFilename, maxFiles)
    }

    /** The log file is there, and nobody else has written to it. */
    ghost predicate Valid()
      reads this, disk
    {
      maxSize > 0 && Files()[0].Some? && currentSize == Size(Files()[0].value)
    }

    constructor Fields(baseFilename: string, maxSize: nat, maxFiles: nat, disk: Disk, currentSize: nat)
      ensures this.baseFilename == baseFilename && this.maxSize == maxSize && this.maxFiles == maxFiles
      ensures this.disk == disk && this.currentSize == currentSize
    {
      this.baseFilename, this.maxSize, this.maxFiles, this.disk := baseFilename, maxSize, maxFiles, disk;
      this.currentSize := currentSize;
    }

    /** What the constructor finds, once the log file is there */
    static function Start(files: map<string, File>, baseFilename: string, maxFiles: nat): (s: Slots)
      ensures |s| == maxFiles + 1
    {
      LookAll(Opened(files, baseFilename), baseFilename, maxFiles)
    }

    /** Does the constructor rotate? */
    static predicate RotatesFirst(files: map<string, File>, baseFilename: string, rotateOnOpen: bool) {
      rotateOnOpen && Size(Opened(files, baseFilename)[baseFilename]) > 0
    }

    /** The constructor: null if it throws. The log file is created if it is not there. */
    static method Open(baseFilename: string, maxSize: nat, maxFiles: nat, rotateOnOpen: bool, disk: Disk,
                       renames: (nat, nat) -> bool)
      returns (sink: RotatingFileSink?, failed: nat)
      modifies disk
      ensures sink == null <==> maxSize == 0 || maxFiles > 200000 || failed > 0
      ensures maxSize == 0 || maxFiles > 200000 ==> disk.files == old(disk.files) && failed == 0
      ensures 0 < maxSize && maxFiles <= 200000 ==>
        failed == if RotatesFirst(old(disk.files), baseFilename, rotateOnOpen)
                  then Failure(Start(old(disk.files), baseFilename, maxFiles), renames, maxFiles) else 0
      ensures 0 < maxSize && maxFiles <= 200000 ==>
        LookAll(disk.files, baseFilename, maxFiles)
        == if RotatesFirst(old(disk.files), baseFilename, rotateOnOpen)
           then Rotated(Start(old(disk.files), baseFilename, maxFiles), failed)
           else Start(old(disk.files), baseFilename, maxFiles)
      ensures sink != null ==> fresh(sink) && sink.Valid() && sink.disk == disk
      ensures sink != null ==> sink.maxFiles == maxFiles && sink.maxSize == maxSize && sink.baseFilename == baseFilename
      ensures sink != null ==>
        var there := baseFilename in old(disk.files);
        && disk.files[baseFilename] == (if there && !(rotateOnOpen && Size(old(disk.files)[baseFilename]) > 0)
                                        then old(disk.files)[baseFilename] else [])
      ensures OthersKept(old(disk.files), disk.files, baseFilename, maxFiles)
    {
      sink, failed := null, 0;
      KeptItself(disk.files, baseFilename, maxFiles);
      if maxSize == 0 { return; }
      if maxFiles > 200000 { return; }
      TruncateOthers(disk.files, baseFilename, maxFiles);
      disk.files := Opened(disk.files, baseFilename);
      OthersChain(old(disk.files), disk.files, baseFilename, maxFiles);
      var s := new RotatingFileSink.Fields(baseFilename, maxSize, maxFiles, disk, Size(disk.files[baseFilename]));
      assert CalcFilename(baseFilename, 0) == baseFilename;
      assert s.Files()[0] == Look(disk.files, baseFilename, 0);
      if rotateOnOpen && s.currentSize > 0 {
        failed := s.Rotate(renames);
        if failed > 0 { return; }
        s.currentSize := 0;
      }
      sink := s;
    }

    /** rename_file_ */
    method RenameFile(src: string, target: string, ok: bool)
      requires src in disk.files && src != target
      modifies disk
      ensures disk.files == if ok then Renamed(old(disk.files), src, target) else old(disk.files) - {target}
    {
      disk.files := disk.files - {target};
      if ok { disk.files := (disk.files - {src})[target := disk.files[src]]; }
    }

    /** Up to two attempts */
    method RenameOrRetry(src: string, target: string, first: bool, second: bool) returns (renamed: bool)
      requires src in disk.files && src != target
      modifies disk
      ensures renamed == (first || second)
      ensures disk.files == if renamed then Renamed(old(disk.files), src, target) else old(disk.files) - {target}
    {
      RenameFile(src, target, first);
      renamed := first;
      if !first {
        RenameFile(src, target, second);
        renamed := second;
      }
    }

    /** Returns the index at which both attempts failed, or 0. */
    method Rotate(renames: (nat, nat) -> bool) returns (failed: nat)
      requires Valid()
      modifies this`currentSize, disk
      ensures failed == Failure(old(Files()), renames, maxFiles) && Files() == Rotated(old(Files()), failed)
      ensures currentSize == if failed > 0 then 0 else old(currentSize)
      ensures OthersKept(old(disk.files), disk.files, baseFilename, maxFiles)
    {
      ghost var before := Files();
      hide CalcFilename, Progress, OthersKept, Renamed, Rotated, LookAll;
      StartProgress(before, disk.files, baseFilename);
      var i := maxFiles;
      while i > 0
        invariant 0 <= i <= maxFiles && Progress(before, disk.files, baseFilename, i) && currentSize == old(currentSize)
        invariant OthersKept(old(disk.files), disk.files, baseFilename, maxFiles)
        invariant Failure(before, renames, maxFiles) == Failure(before, renames, i)
      {
        ghost var files := disk.files;
        ProgressStep(before, files, baseFilename, i);
        var src := CalcFilename(baseFilename, i - 1);
        if src in disk.files {
          var target := CalcFilename(baseFilename, i);
          if src == target { NamesDiffer(baseFilename, i - 1, i); }
          RenameOthers(files, baseFilename, maxFiles, i);
          OthersChain(old(disk.files), files, baseFilename, maxFiles);
          var renamed := RenameOrRetry(src, target, renames(i, 0), renames(i, 1));
          if !renamed {
            ProgressFailed(before, files, baseFilename, i);
            disk.files := disk.files[baseFilename := []];
            currentSize := 0;
            return i;
          }
        }
        i := i - 1;
      }
      ProgressDone(before, disk.files, baseFilename);
      TruncateOthers(disk.files, baseFilename, maxFiles);
      OthersChain(old(disk.files), disk.files, baseFilename, maxFiles);
      disk.files := disk.files[baseFilename := []];
      failed := 0;
    }

    /** The record goes to the end of the log file. */
    method Write(record: string)
      requires Files()[0].Some?
      modifies disk
      ensures Files() == old(Files())[0 := Some(old(Files())[0].value + [record])]
      ensures OthersKept(old(disk.files), disk.files, baseFilename, maxFiles)
    {
      hide LookAll, OthersKept, Own;
      FirstFile(disk.files, baseFilename, maxFiles);
      var f := disk.files[baseFilename] + [record];
      Appended(disk.files, baseFilename, maxFiles, f);
      disk.files := disk.files[baseFilename := f];
    }

    /** sink_it_; throws if the rotation does. */
    method SinkIt(record: string, renames: (nat, nat) -> bool) returns (failed: nat)
      requires Valid()
      modifies this`currentSize, disk
      ensures Valid()
      ensures Files() == Sunk(old(Files()), maxSize, record, renames)
      ensures failed
           == if NeedsRotation(old(Files()), maxSize, record) then Failure(old(Files()), renames, maxFiles) else 0
      ensures Size(old(Files())[0].value) + |record| <= maxSize ==>
                failed == 0 && Files() == old(Files())[0 := Some(old(Files())[0].value + [record])]
      ensures OthersKept(old(disk.files), disk.files, baseFilename, maxFiles)
    {
      hide LookAll, OthersKept, Rotated, Own, Size;
      failed := 0;
      ghost var before := Files();
      FirstFile(disk.files, baseFilename, maxFiles);
      var newSize := currentSize + |record|;
      if newSize > maxSize && Size(disk.files[baseFilename]) > 0 {
        failed := Rotate(renames);
        FirstOfRotated(before, failed);
        SizeSnoc([], record);
        if failed > 0 { return; }
        newSize := |record|;
      } else {
        KeptItself(disk.files, baseFilename, maxFiles);
      }
      ghost var files := disk.files;
      SizeSnoc(Files()[0].value, record);
      Write(record);
      OthersChain(old(disk.files), files, baseFilename, maxFiles);
      currentSize := newSize;
    }
  }

  /** A sink that is opened and then logs all the records, as far as the system lets it */
  method LogAll(baseFilename: string, maxSize: nat, maxFiles: nat, rotateOnOpen: bool, disk: Disk,
                opening: (nat, nat) -> bool, records: seq<string>, renames: nat -> (nat, nat) -> bool)
    returns (sink: RotatingFileSink?)
    modifies disk
    ensures var start, first := RotatingFileSink.Start(old(disk.files), baseFilename, maxFiles),
                                RotatingFileSink.RotatesFirst(old(disk.files), baseFilename, rotateOnOpen);
      && (sink == null <==> maxSize == 0 || maxFiles > 200000 || (first && Failure(start, opening, maxFiles) > 0))
      && (sink != null ==> sink.disk == disk && sink.maxFiles == maxFiles && sink.Valid()
                           && sink.Files()
                              == SunkAll(if first then Rotated(start) else start, maxSize, records, renames))
    ensures OthersKept(old(disk.files), disk.files, baseFilename, maxFiles)
  {
    hide Sunk, Failure, Rotated, LookAll, OthersKept, RotatingFileSink.Start;
    var failed;
    sink, failed := RotatingFileSink.Open(baseFilename, maxSize, maxFiles, rotateOnOpen, disk, opening);
    if sink == null { return; }
    ghost var s := sink.Files();
    assert records[..0] == [];
    for n := 0 to |records|
      invariant sink.Valid() && sink.Files() == SunkAll(s, maxSize, records[..n], renames)
      invariant sink.baseFilename == baseFilename && OthersKept(old(disk.files), disk.files, baseFilename, maxFiles)
    {
      OthersChain(old(disk.files), disk.files, baseFilename, maxFiles);
      assert records[..n + 1][..n] == records[..n];
      failed := sink.SinkIt(records[n], renames(n));
    }
    assert records[..|records|] == records;
  }

  predicate EndsWith(f: Option<File>, record: string) {
    f.Some? && f.value != [] && f.value[|f.value| - 1] == record
  }

  /** With no log files there and a system that renames, what the files hold in the end is a suffix of all records. */
  method LogFresh(baseFilename: string, maxSize: nat, maxFiles: nat, rotateOnOpen: bool, disk: Disk,
                  opening: (nat, nat) -> bool, records: seq<string>, renames: nat -> (nat, nat) -> bool)
    returns (sink: RotatingFileSink?, ghost dropped: File)
    requires forall n: nat :: Renaming(renames(n))
    requires forall name <- disk.files :: !Own(baseFilename, maxFiles, name)
    modifies disk
    ensures sink == null <==> maxSize == 0 || maxFiles > 200000
    ensures sink != null ==>
      && sink.disk == disk && sink.maxFiles == maxFiles
      && records == dropped + Retained(sink.Files())
      && AllBounded(sink.Files(), maxSize) && Packed(sink.Files(), maxSize)
      && (dropped != [] ==> AllExist(sink.Files()))
      && (records != [] ==> EndsWith(sink.Files()[0], records[|records| - 1]))
  {
    OpenedFresh(disk.files, baseFilename, maxFiles);
    OpenedEmpty(disk.files, baseFilename, maxFiles);
    SunkIsLogged(Fresh(maxFiles), maxSize, records, renames);
    dropped := FreshLogRetention(maxFiles, maxSize, records);
    hide *;
    sink := LogAll(baseFilename, maxSize, maxFiles, rotateOnOpen, disk, opening, records, renames);
  }

  lemma OpenedEmpty(files: map<string, File>, base: string, maxFiles: nat)
    requires forall name <- files :: !Own(base, maxFiles, name)
    ensures Size(Opened(files, base)[base]) == 0
  {
    assert CalcFilename(base, 0) == base && Own(base, maxFiles, base);
  }

  lemma SizeSnoc(f: File, record: string)
    ensures Size(f + [record]) == Size(f) + |record| && Size([]) == 0 && [] + [record] == [record]
  {
    assert (f + [record])[..|f|] == f;
  }

  lemma FirstFile(files: map<string, File>, base: string, maxFiles: nat)
    ensures LookAll(files, base, maxFiles)[0] == if base in files then Some(files[base]) else None
  {
  }

  lemma FirstOfRotated(s: Slots, failed: nat)
    ensures Rotated(s, failed)[0] == Some([])
  {
  }

  lemma KeptItself(files: map<string, File>, base: string, maxFiles: nat)
    ensures OthersKept(files, files, base, maxFiles)
  {
  }

  lemma Appended(files: map<string, File>, base: string, maxFiles: nat, f: File)
    ensures LookAll(files[base := f], base, maxFiles) == LookAll(files, base, maxFiles)[0 := Some(f)]
    ensures OthersKept(files, files[base := f], base, maxFiles)
  {
    assert CalcFilename(base, 0) == base;
    forall j | 0 <= j <= maxFiles { WrittenLook(files, base, f, j); }
  }
}
