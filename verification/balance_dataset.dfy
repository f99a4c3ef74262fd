/**
 * The dataset balancer: for each split it counts the images of every class
 * directory, picks a target count (the smallest class for undersampling,
 * the largest for oversampling and augmentation unless one is given), and
 * plans what each class directory of the output receives: a random subset
 * of the originals, or all originals plus generated copies named
 * <stem>_dup<idx:04d><suffix> / <stem>_aug<idx:04d><suffix>.
 *
 * The file system is a value: a split is a list of directory entries, and a
 * class's output is the list of files written into it, in writing order.
 * The random draws are nondeterministic choices.
 */
module DatasetBalance {
  import opened Outcomes

  /** An image file, split into its stem and suffix ("leaf", ".jpg"). */
  datatype ImageFile = ImageFile(stem: string, suffix: string)

  function Name(f: ImageFile): string
  {
    f.stem + f.suffix
  }

  /**
   * An entry of a split directory: a class directory with the images its
   * glob patterns ("*.[jp][pn]g", "*.jpeg") find, or anything else.
   */
  datatype DirEntry = ClassDir(name: string, images: seq<ImageFile>) | Other(name: string)

  /** The dataset directory: the entries of each split directory that exists. */
  type Dataset = map<string, seq<DirEntry>>

  /** A file written into an output class directory: a copy, or an augmented image. */
  datatype Written = Copied(source: ImageFile, name: string) | Augmented(source: ImageFile, name: string)

  /** Entries of one directory have distinct names. */
  predicate DistinctNames(entries: seq<DirEntry>)
  {
    forall j, k :: 0 <= j < k < |entries| ==> entries[j].name != entries[k].name
  }

  // ---------------------------------------------------------------------
  // Counting

  /** The class_counts dict for a list of entries: later entries overwrite earlier ones. */
  function CountsOf(entries: seq<DirEntry>): map<string, nat>
  {
    if entries == [] then map[]
    else
      var counts := CountsOf(entries[..|entries| - 1]);
      match entries[|entries| - 1]
      case ClassDir(name, images) => counts[name := |images|]
      case Other(_) => counts
  }

  /** count_images: {} for a missing split, otherwise one entry per class directory. */
  method CountImages(dataset: Dataset, split: string) returns (counts: map<string, nat>)
    ensures split !in dataset ==> counts == map[]
    ensures split in dataset ==> counts == CountsOf(dataset[split])
  {
    if split !in dataset {
      return map[];
    }
    var entries := dataset[split];
    counts := map[];
    for i := 0 to |entries|
      invariant counts == CountsOf(entries[..i])
    {
      assert entries[..i + 1][..i] == entries[..i];
      if entries[i].ClassDir? {
        counts := counts[entries[i].name := |entries[i].images|];
      }
    }
    assert entries[..|entries|] == entries;
  }

  /** The counted classes are exactly the class directories. */
  lemma {:induction false} CountsOfKeys(entries: seq<DirEntry>)
    ensures CountsOf(entries).Keys == set e | e in entries && e.ClassDir? :: e.name
  {
    if entries != [] {
      var init := entries[..|entries| - 1];
      CountsOfKeys(init);
      assert entries == init + [entries[|entries| - 1]];
    }
  }

  /** With distinct names, each class is counted with its own number of images. */
  lemma {:induction false} CountsOfSizes(entries: seq<DirEntry>, j: int)
    requires DistinctNames(entries)
    requires 0 <= j < |entries| && entries[j].ClassDir?
    ensures entries[j].name in CountsOf(entries)
    ensures CountsOf(entries)[entries[j].name] == |entries[j].images|
  {
    var init := entries[..|entries| - 1];
    if j < |entries| - 1 {
      CountsOfSizes(init, j);
    }
  }

  // ---------------------------------------------------------------------
  // Target count

  datatype Strategy = Undersample | Oversample | Augment

  /** The method names balance accepts. */
  function ParseStrategy(methodName: string): (s: Option<Strategy>)
    ensures s.Some? <==> methodName in {"undersample", "oversample", "augment"}
  {
    if methodName == "undersample" then Some(Undersample)
    else if methodName == "oversample" then Some(Oversample)
    else if methodName == "augment" then Some(Augment)
    else None
  }

  /** m is the smallest element of s. */
  predicate IsLeast(s: set<nat>, m: nat)
  {
    m in s && forall x :: x in s ==> m <= x
  }

  /** m is the largest element of s. */
  predicate IsGreatest(s: set<nat>, m: nat)
  {
    m in s && forall x :: x in s ==> x <= m
  }

  lemma {:induction false} LeastExists(s: set<nat>)
    requires s != {}
    ensures exists m :: IsLeast(s, m)
    decreases |s|
  {
    var y :| y in s;
    if s == {y} {
      assert IsLeast(s, y);
    } else {
      var rest := s - {y};
      LeastExists(rest);
      var lo :| IsLeast(rest, lo);
      var m := if y < lo then y else lo;
      forall x | x in s
        ensures m <= x
      {
        if x != y {
          assert x in rest;
        }
      }
      assert IsLeast(s, m);
    }
  }

  lemma {:induction false} GreatestExists(s: set<nat>)
    requires s != {}
    ensures exists m :: IsGreatest(s, m)
    decreases |s|
  {
    var y :| y in s;
    if s == {y} {
      assert IsGreatest(s, y);
    } else {
      var rest := s - {y};
      GreatestExists(rest);
      var hi :| IsGreatest(rest, hi);
      var m := if y > hi then y else hi;
      forall x | x in s
        ensures x <= m
      {
        if x != y {
          assert x in rest;
        }
      }
      assert IsGreatest(s, m);
    }
  }

  /** min(counts.values()) */
  function MinCount(counts: map<string, nat>): (m: nat)
    requires |counts| > 0
    ensures m in counts.Values && forall c :: c in counts.Values ==> m <= c
  {
    var k :| k in counts;
    assert counts[k] in counts.Values;
    LeastExists(counts.Values);
    var m :| IsLeast(counts.Values, m);
    m
  }

  /** max(counts.values()) */
  function MaxCount(counts: map<string, nat>): (m: nat)
    requires |counts| > 0
    ensures m in counts.Values && forall c :: c in counts.Values ==> c <= m
  {
    var k :| k in counts;
    assert counts[k] in counts.Values;
    GreatestExists(counts.Values);
    var m :| IsGreatest(counts.Values, m);
    m
  }

  /** The target count: the one given, else the smallest class for undersampling and the largest otherwise. */
  function Target(strategy: Strategy, counts: map<string, nat>, targetCount: Option<int>): (t: int)
    requires |counts| > 0
    ensures targetCount.Some? ==> t == targetCount.value
    ensures targetCount.None? && strategy == Undersample ==> t == MinCount(counts)
    ensures targetCount.None? && strategy != Undersample ==> t == MaxCount(counts)
  {
    match targetCount
    case Some(t) => t
    case None => if strategy == Undersample then MinCount(counts) else MaxCount(counts)
  }

  // ---------------------------------------------------------------------
  // Generated names

  function Zeros(k: int): (s: string)
    ensures |s| == if k <= 0 then 0 else k
    ensures forall i :: 0 <= i < |s| ==> s[i] == '0'
    decreases k
  {
    if k <= 0 then "" else "0" + Zeros(k - 1)
  }

  /** f"{idx:04d}": the decimal digits, zero-filled to a width of four. */
  function Pad4(idx: nat): (s: string)
    ensures forall i :: 0 <= i < |s| ==> IsDigit(s[i])
  {
    Zeros(4 - |Digits(idx)|) + Digits(idx)
  }

  /** The number a string of decimal digits spells. */
  function Value(s: string): int
  {
    if s == [] then 0 else 10 * Value(s[..|s| - 1]) + (s[|s| - 1] as int - 48)
  }

  lemma {:induction false} ValueOfDigits(n: nat)
    ensures Value(Digits(n)) == n
  {
    if n >= 10 {
      var s := Digits(n / 10);
      ValueOfDigits(n / 10);
      assert (s + [DigitChar(n % 10)])[..|s|] == s;
    }
  }

  lemma {:induction false} ValueIgnoresLeadingZeros(k: int, s: string)
    ensures Value(Zeros(k) + s) == Value(s)
  {
    if s == [] {
      assert Zeros(k) + s == Zeros(k);
      ValueOfZeros(k);
    } else {
      var init := s[..|s| - 1];
      ValueIgnoresLeadingZeros(k, init);
      assert (Zeros(k) + s)[..|Zeros(k) + s| - 1] == Zeros(k) + init;
    }
  }

  lemma {:induction false} ValueOfZeros(k: int)
    ensures Value(Zeros(k)) == 0
    decreases k
  {
    if k > 0 {
      var z := Zeros(k);
      assert z[..|z| - 1] == Zeros(k - 1) by {
        assert z == Zeros(k - 1) + "0";
      }
      ValueOfZeros(k - 1);
    }
  }

  /** Reading the padded index back gives the index. */
  lemma Pad4RoundTrip(idx: nat)
    ensures Value(Pad4(idx)) == idx
  {
    ValueIgnoresLeadingZeros(4 - |Digits(idx)|, Digits(idx));
    ValueOfDigits(idx);
  }

  lemma {:induction false} DigitsBelow(n: nat, k: nat)
    requires k >= 1
    requires n < Power10(k)
    ensures |Digits(n)| <= k
  {
    if n >= 10 {
      DigitsBelow(n / 10, k - 1);
    }
  }

  function Power10(k: nat): nat
  {
    if k == 0 then 1 else 10 * Power10(k - 1)
  }

  /** Indices below 10000 are written with exactly four digits. */
  lemma Pad4Width(idx: nat)
    requires idx < 10000
    ensures |Pad4(idx)| == 4
  {
    DigitsBelow(idx, 4);
  }

  /** f"{stem}{tag}{idx:04d}{suffix}" */
  function GeneratedName(source: ImageFile, tag: string, idx: nat): string
  {
    source.stem + tag + Pad4(idx) + source.suffix
  }

  predicate NoDigits(s: string)
  {
    forall i :: 0 <= i < |s| ==> !IsDigit(s[i])
  }

  /**
   * Generated names with different indices below 10000 never clash, whatever
   * the source images, provided the suffixes hold no digits (as every suffix
   * the glob patterns admit).
   */
  lemma GeneratedNamesDistinct(a: ImageFile, b: ImageFile, tag: string, i: nat, j: nat)
    requires i < 10000 && j < 10000 && i != j
    requires NoDigits(a.suffix) && NoDigits(b.suffix)
    ensures GeneratedName(a, tag, i) != GeneratedName(b, tag, j)
  {
    var x, y := GeneratedName(a, tag, i), GeneratedName(b, tag, j);
    var sa, sb := a.suffix, b.suffix;
    Pad4Width(i);
    Pad4Width(j);
    if |sa| == |sb| {
      if x == y {
        assert x[|x| - |sa| - 4..|x| - |sa|] == Pad4(i);
        assert y[|y| - |sb| - 4..|y| - |sb|] == Pad4(j);
        Pad4RoundTrip(i);
        Pad4RoundTrip(j);
      }
    } else if |sa| < |sb| {
      assert x[|x| - |sa| - 1] == Pad4(i)[3];
    } else {
      assert y[|y| - |sb| - 1] == Pad4(j)[3];
    }
  }

  // ---------------------------------------------------------------------
  // Per-class plans

  /** Copying a file under its own name. */
  function Original(f: ImageFile): Written
  {
    Copied(f, Name(f))
  }

  function Originals(files: seq<ImageFile>): (w: seq<Written>)
    ensures |w| == |files|
  {
    seq(|files|, i requires 0 <= i < |files| => Original(files[i]))
  }

  /** The generated file number idx: a "_dup" copy, or an "_aug" augmented image. */
  function Derived(source: ImageFile, idx: nat, strategy: Strategy): Written
  {
    if strategy == Augment then Augmented(source, GeneratedName(source, "_aug", idx))
    else Copied(source, GeneratedName(source, "_dup", idx))
  }

  /** What random.sample(population, k) may return, as indices: k distinct positions. */
  predicate IsSample(picks: seq<nat>, n: nat, k: nat)
  {
    |picks| == k &&
    (forall i :: 0 <= i < k ==> picks[i] < n) &&
    (forall i, j :: 0 <= i < j < k ==> picks[i] != picks[j])
  }

  /** Generated file t is derived from the original picks[t]. */
  predicate GeneratedFrom(picks: seq<nat>, strategy: Strategy, images: seq<ImageFile>, generated: seq<Written>)
  {
    |picks| == |generated| &&
    forall t :: 0 <= t < |picks| ==> picks[t] < |images| && generated[t] == Derived(images[picks[t]], t, strategy)
  }

  /** Whether balancing a class of n images towards `target` raises. */
  predicate ClassFails(strategy: Strategy, n: nat, target: int)
  {
    if strategy == Undersample then n > target && target < 0 else n == 0 && target > 0
  }

  /**
   * What a failing class raises: random.sample's ValueError when
   * undersampling, IndexError from choosing among no originals otherwise.
   */
  function ClassError(strategy: Strategy): Exception
  {
    if strategy == Undersample then ValueError("Sample larger than population or is negative") else IndexError
  }

  /**
   * What a class directory of the output receives. Undersampling: all
   * originals when the class is not above the target, else `target`
   * distinct originals. Otherwise: all originals, then the generated files
   * 0, 1, ... up to the target, each derived from some original.
   */
  ghost predicate ClassPlan(strategy: Strategy, images: seq<ImageFile>, target: int, written: seq<Written>)
  {
    if strategy == Undersample then
      if |images| <= target then written == Originals(images)
      else
        0 <= target && |written| == target &&
        exists picks :: IsSample(picks, |images|, target) &&
          forall i :: 0 <= i < target ==> written[i] == Original(images[picks[i]])
    else
      |written| == (if |images| < target then target else |images|) &&
      written[..|images|] == Originals(images) &&
      exists picks :: GeneratedFrom(picks, strategy, images, written[|images|..])
  }

  /**
   * Each class ends with min(len, target) files when undersampling and
   * max(len, target) otherwise.
   */
  lemma ClassPlanSize(strategy: Strategy, images: seq<ImageFile>, target: int, written: seq<Written>)
    requires ClassPlan(strategy, images, target, written)
    ensures strategy == Undersample ==> |written| == if |images| <= target then |images| else target
    ensures strategy != Undersample ==> |written| == if |images| < target then target else |images|
  {
  }

  /** The copy loop: every file under its own name, in order. */
  method CopyOriginals(files: seq<ImageFile>) returns (written: seq<Written>)
    ensures written == Originals(files)
  {
    written := [];
    for i := 0 to |files|
      invariant written == Originals(files[..i])
    {
      written := written + [Original(files[i])];
    }
    assert files[..|files|] == files;
  }

  /**
   * One class of balance_by_undersampling: above the target, random.sample
   * picks `target` distinct images (ValueError for a negative target);
   * otherwise every image is kept.
   */
  method UndersampleClass(images: seq<ImageFile>, target: int) returns (r: Try<seq<Written>>)
    ensures r.Raise? <==> ClassFails(Undersample, |images|, target)
    ensures r.Raise? ==> r.exc == ClassError(Undersample)
    ensures r.Ok? ==> ClassPlan(Undersample, images, target, r.value)
  {
    if |images| > target {
      if target < 0 {
        return Raise(ClassError(Undersample));
      }
      var k: nat := target;
      assert IsSample(seq(k, i => i), |images|, k);
      var picks: seq<nat> :| IsSample(picks, |images|, k);
      assert IsSample(picks, |images|, k);
      var selected := seq(k, i requires 0 <= i < k => images[picks[i]]);
      var written := CopyOriginals(selected);
      r := Ok(written);
    } else {
      var written := CopyOriginals(images);
      r := Ok(written);
    }
  }

  /**
   * One class of balance_by_oversampling or balance_by_augmentation: every
   * original is copied, then target - len files are generated from randomly
   * chosen originals (random.choices up front for duplicates, random.choice
   * per file for augmentations). Choosing from an empty class raises
   * IndexError.
   */
  method ExtendClass(strategy: Strategy, images: seq<ImageFile>, target: int) returns (r: Try<seq<Written>>)
    requires strategy != Undersample
    ensures r.Raise? <==> ClassFails(strategy, |images|, target)
    ensures r.Raise? ==> r.exc == ClassError(strategy)
    ensures r.Ok? ==> ClassPlan(strategy, images, target, r.value)
  {
    var written := CopyOriginals(images);
    if |images| < target {
      var needed := target - |images|;
      if |images| == 0 {
        return Raise(ClassError(strategy));
      }
      ghost var originals := written;
      ghost var picks: seq<nat> := [];
      for idx := 0 to needed
        invariant |written| == |images| + idx
        invariant written[..|images|] == originals
        invariant GeneratedFrom(picks, strategy, images, written[|images|..])
      {
        var k :| 0 <= k < |images|;
        written := written + [Derived(images[k], idx, strategy)];
        picks := picks + [k];
      }
    } else {
      assert GeneratedFrom([], strategy, images, written[|images|..]);
    }
    r := Ok(written);
  }

  /** The per-class step of the balance_by_* method for `strategy`. */
  method BalanceClass(strategy: Strategy, images: seq<ImageFile>, target: int) returns (r: Try<seq<Written>>)
    ensures r.Raise? <==> ClassFails(strategy, |images|, target)
    ensures r.Raise? ==> r.exc == ClassError(strategy)
    ensures r.Ok? ==> ClassPlan(strategy, images, target, r.value)
  {
    if strategy == Undersample {
      r := UndersampleClass(images, target);
    } else {
      r := ExtendClass(strategy, images, target);
    }
  }

  // ---------------------------------------------------------------------
  // A split, and the whole run

  /**
   * What balancing one split produces: nothing when it has no class
   * directory; otherwise, unless some class fails, a plan for every class
   * directory and for nothing else.
   */
  ghost predicate SplitPlan(strategy: Strategy, entries: seq<DirEntry>, target: int, plans: map<string, seq<Written>>)
  {
    plans.Keys == CountsOf(entries).Keys &&
    forall j :: 0 <= j < |entries| && entries[j].ClassDir? ==>
      entries[j].name in plans && ClassPlan(strategy, entries[j].images, target, plans[entries[j].name])
  }

  /** Some class directory of the split fails towards `target`. */
  ghost predicate SplitFails(strategy: Strategy, entries: seq<DirEntry>, target: int)
  {
    exists j :: 0 <= j < |entries| && entries[j].ClassDir? && ClassFails(strategy, |entries[j].images|, target)
  }

  /** Balancing `split` of the dataset raises: it has classes, and one of them fails. */
  ghost predicate SplitRaises(dataset: Dataset, split: string, strategy: Strategy, targetCount: Option<int>)
  {
    split in dataset && CountsOf(dataset[split]) != map[] &&
    SplitFails(strategy, dataset[split], Target(strategy, CountsOf(dataset[split]), targetCount))
  }

  /**
   * balance_by_undersampling / balance_by_oversampling /
   * balance_by_augmentation for one split. A missing or class-less split
   * gives no output; otherwise the target is fixed once and every class
   * planned in directory order, the first failing class raising.
   */
  method BalanceSplit(dataset: Dataset, split: string, strategy: Strategy, targetCount: Option<int>)
    returns (r: Try<map<string, seq<Written>>>)
    requires split in dataset ==> DistinctNames(dataset[split])
    ensures split !in dataset || CountsOf(dataset[split]) == map[] ==> r == Ok(map[])
    ensures split in dataset && CountsOf(dataset[split]) != map[] ==>
      var entries := dataset[split];
      var target := Target(strategy, CountsOf(entries), targetCount);
      (r.Raise? <==> SplitFails(strategy, entries, target)) &&
      (r.Ok? ==> SplitPlan(strategy, entries, target, r.value))
    ensures r.Raise? <==> SplitRaises(dataset, split, strategy, targetCount)
    ensures r.Raise? ==> r.exc == ClassError(strategy)
  {
    var counts := CountImages(dataset, split);
    if |counts| == 0 {
      return Ok(map[]);
    }
    var entries := dataset[split];
    var target := Target(strategy, counts, targetCount);
    r := PlanClasses(entries, strategy, target);
  }

  /** The loop over the classes of a split, in directory order; the first failing class stops it. */
  method PlanClasses(entries: seq<DirEntry>, strategy: Strategy, target: int) returns (r: Try<map<string, seq<Written>>>)
    requires DistinctNames(entries)
    ensures r.Raise? <==> SplitFails(strategy, entries, target)
    ensures r.Raise? ==> r.exc == ClassError(strategy)
    ensures r.Ok? ==> SplitPlan(strategy, entries, target, r.value)
  {
    var plans: map<string, seq<Written>> := map[];
    for i := 0 to |entries|
      invariant plans.Keys == CountsOf(entries[..i]).Keys
      invariant forall j :: 0 <= j < i && entries[j].ClassDir? ==>
        entries[j].name in plans && ClassPlan(strategy, entries[j].images, target, plans[entries[j].name])
      invariant forall j :: 0 <= j < i && entries[j].ClassDir? ==> !ClassFails(strategy, |entries[j].images|, target)
    {
      assert entries[..i + 1][..i] == entries[..i];
      if entries[i].ClassDir? {
        var name := entries[i].name;
        var written := BalanceClass(strategy, entries[i].images, target);
        if written.Raise? {
          return Raise(written.exc);
        }
        assert forall j :: 0 <= j < i ==> entries[j].name != name;
        plans := plans[name := written.value];
      }
    }
    assert entries[..|entries|] == entries;
    r := Ok(plans);
  }

  /** What a run of balance leaves in the output directory. */
  datatype BalanceResult = BalanceResult(plans: map<string, map<string, seq<Written>>>, copiedVal: bool)

  /**
   * balance: every split in `splits` is balanced with the named method, an
   * unknown method raising ValueError at the first split (so never when
   * there is no split); afterwards the validation split is copied unchanged
   * when it exists and was not balanced itself.
   */
  method Balance(dataset: Dataset, methodName: string, targetCount: Option<int>, splits: seq<string>)
    returns (r: Try<BalanceResult>)
    requires forall s :: s in dataset ==> DistinctNames(dataset[s])
    ensures ParseStrategy(methodName).None? ==>
      r == if |splits| == 0 then Ok(BalanceResult(map[], "val" !in splits && "val" in dataset))
           else Raise(ValueError("Unknown method: " + methodName))
    ensures r.Ok? ==> r.value.copiedVal == ("val" !in splits && "val" in dataset)
    ensures r.Ok? ==> r.value.plans.Keys == set s | s in splits
    ensures r.Ok? && |splits| > 0 ==>
      ParseStrategy(methodName).Some? &&
      forall s :: s in splits && s in dataset && CountsOf(dataset[s]) != map[] ==>
        SplitPlan(ParseStrategy(methodName).value, dataset[s],
                  Target(ParseStrategy(methodName).value, CountsOf(dataset[s]), targetCount), r.value.plans[s])
    ensures r.Ok? ==>
      forall s :: s in splits && (s !in dataset || CountsOf(dataset[s]) == map[]) ==> r.value.plans[s] == map[]
    ensures ParseStrategy(methodName).Some? ==>
      (r.Ok? <==> forall s :: s in splits ==> !SplitRaises(dataset, s, ParseStrategy(methodName).value, targetCount))
    ensures ParseStrategy(methodName).Some? && r.Raise? ==> r.exc == ClassError(ParseStrategy(methodName).value)
  {
    var plans: map<string, map<string, seq<Written>>> := map[];
    for i := 0 to |splits|
      invariant plans.Keys == set s | s in splits[..i]
      invariant i > 0 ==> ParseStrategy(methodName).Some?
      invariant forall s :: s in plans && s in dataset && CountsOf(dataset[s]) != map[] ==>
        SplitPlan(ParseStrategy(methodName).value, dataset[s],
                  Target(ParseStrategy(methodName).value, CountsOf(dataset[s]), targetCount), plans[s])
      invariant forall s :: s in plans && (s !in dataset || CountsOf(dataset[s]) == map[]) ==> plans[s] == map[]
      invariant i > 0 ==> forall s :: s in splits[..i] ==> !SplitRaises(dataset, s, ParseStrategy(methodName).value, targetCount)
    {
      assert splits[..i + 1] == splits[..i] + [splits[i]];
      var strategy := ParseStrategy(methodName);
      if strategy.None? {
        return Raise(ValueError("Unknown method: " + methodName));
      }
      var plan := BalanceSplit(dataset, splits[i], strategy.value, targetCount);
      if plan.Raise? {
        return Raise(plan.exc);
      }
      plans := plans[splits[i] := plan.value];
    }
    assert splits[..|splits|] == splits;
    r := Ok(BalanceResult(plans, "val" !in splits && "val" in dataset));
  }
}
