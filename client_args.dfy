/**
 * How the client lays out the arguments of the commands whose option lists
 * vary: CF.INSERT / CF.INSERTNX (GetInsertArgs), BF.INSERT, CF.RESERVE and
 * CMS.MERGE. Each builder is a method that grows the argument list step by
 * step, proved equal to a function; lemmas state the layout and that a
 * reader of the list recovers every value the builder was given.
 */
module ClientArgs {
  import opened Wire
  import Strconv

  /** The strings as text arguments, in order (redis.Args.AddFlat on []string). */
  function Texts(items: seq<string>): (r: seq<Arg>)
    ensures |r| == |items|
    ensures forall i :: 0 <= i < |items| ==> r[i] == Text(items[i])
  {
    seq(|items|, i requires 0 <= i < |items| => Text(items[i]))
  }

  /** The integers as integer arguments, in order (AddFlat on []int64). */
  function Integers(ns: seq<Int64>): (r: seq<Arg>)
    ensures |r| == |ns|
    ensures forall i :: 0 <= i < |ns| ==> r[i] == Integer(ns[i])
  {
    seq(|ns|, i requires 0 <= i < |ns| => Integer(ns[i]))
  }

  /** A keyword with its value, present only when the value is positive. */
  function PositiveOption(keyword: string, value: int): seq<Arg>
  {
    if value > 0 then [Text(keyword), Integer(value)] else []
  }

  /** A keyword with a float value, present only when the value is positive. */
  function RatioOption(keyword: string, value: real): seq<Arg>
  {
    if value > 0.0 then [Text(keyword), Float(value)] else []
  }

  /** A flag keyword, present only when set. */
  function Flag(keyword: string, set_: bool): seq<Arg>
  {
    if set_ then [Text(keyword)] else []
  }

  // ---------------------------------------------------------------------
  // Layouts

  function InsertArgs(key: string, cap: Int64, noCreate: bool, items: seq<string>): seq<Arg>
  {
    [Text(key)] + (PositiveOption("CAPACITY", cap) + (Flag("NOCREATE", noCreate)
    + ([Text("ITEMS")] + Texts(items))))
  }

  function BfInsertArgs(key: string, cap: Int64, errorRatio: real, expansion: Int64,
                        noCreate: bool, nonScaling: bool, items: seq<string>): seq<Arg>
  {
    [Text(key)] + PositiveOption("CAPACITY", cap) + RatioOption("ERROR", errorRatio)
    + PositiveOption("EXPANSION", expansion) + Flag("NOCREATE", noCreate)
    + Flag("NONSCALING", nonScaling) + ([Text("ITEMS")] + Texts(items))
  }

  function CfReserveArgs(key: string, capacity: Int64, bucketSize: Int64,
                         maxIterations: Int64, expansion: Int64): seq<Arg>
  {
    [Text(key), Integer(capacity)] + (PositiveOption("BUCKETSIZE", bucketSize)
    + (PositiveOption("MAXITERATIONS", maxIterations) + PositiveOption("EXPANSION", expansion)))
  }

  function CmsMergeArgs(dest: string, srcs: seq<string>, weights: seq<Int64>): seq<Arg>
  {
    [Text(dest), Integer(|srcs|)] + Texts(srcs)
    + (if |weights| > 0 then [Text("WEIGHTS")] + Integers(weights) else [])
  }

  // ---------------------------------------------------------------------
  // Builders

  /** GetInsertArgs: key, CAPACITY only for a positive cap, NOCREATE, ITEMS and the items. */
  method GetInsertArgs(key: string, cap: Int64, noCreate: bool, items: seq<string>) returns (args: seq<Arg>)
    ensures args == InsertArgs(key, cap, noCreate, items)
    ensures |args| == 2 + |items| + (if cap > 0 then 2 else 0) + (if noCreate then 1 else 0)
  {
    args := [Text(key)];
    if cap > 0 {
      args := args + [Text("CAPACITY"), Integer(cap)];
    }
    if noCreate {
      args := args + [Text("NOCREATE")];
    }
    args := args + ([Text("ITEMS")] + Texts(items));
  }

  /** The argument list BfInsert sends with BF.INSERT. */
  method BuildBfInsertArgs(key: string, cap: Int64, errorRatio: real, expansion: Int64,
                           noCreate: bool, nonScaling: bool, items: seq<string>) returns (args: seq<Arg>)
    ensures args == BfInsertArgs(key, cap, errorRatio, expansion, noCreate, nonScaling, items)
    ensures |args| == 2 + |items| + (if cap > 0 then 2 else 0) + (if errorRatio > 0.0 then 2 else 0)
                     + (if expansion > 0 then 2 else 0) + (if noCreate then 1 else 0)
                     + (if nonScaling then 1 else 0)
  {
    args := [Text(key)];
    if cap > 0 {
      args := args + [Text("CAPACITY"), Integer(cap)];
    }
    assert args == [Text(key)] + PositiveOption("CAPACITY", cap);
    if errorRatio > 0.0 {
      args := args + [Text("ERROR"), Float(errorRatio)];
    }
    assert args == [Text(key)] + PositiveOption("CAPACITY", cap) + RatioOption("ERROR", errorRatio);
    ghost var upToError := args;
    if expansion > 0 {
      args := args + [Text("EXPANSION"), Integer(expansion)];
    }
    assert args == upToError + PositiveOption("EXPANSION", expansion);
    ghost var upToExpansion := args;
    if noCreate {
      args := args + [Text("NOCREATE")];
    }
    assert args == upToExpansion + Flag("NOCREATE", noCreate);
    ghost var upToNoCreate := args;
    if nonScaling {
      args := args + [Text("NONSCALING")];
    }
    assert args == upToNoCreate + Flag("NONSCALING", nonScaling);
    args := args + ([Text("ITEMS")] + Texts(items));
  }

  /** The argument list CfReserve sends with CF.RESERVE. */
  method BuildCfReserveArgs(key: string, capacity: Int64, bucketSize: Int64,
                            maxIterations: Int64, expansion: Int64) returns (args: seq<Arg>)
    ensures args == CfReserveArgs(key, capacity, bucketSize, maxIterations, expansion)
    ensures |args| == 2 + (if bucketSize > 0 then 2 else 0) + (if maxIterations > 0 then 2 else 0)
                     + (if expansion > 0 then 2 else 0)
  {
    args := [Text(key), Integer(capacity)];
    if bucketSize > 0 {
      args := args + [Text("BUCKETSIZE"), Integer(bucketSize)];
    }
    if maxIterations > 0 {
      args := args + [Text("MAXITERATIONS"), Integer(maxIterations)];
    }
    if expansion > 0 {
      args := args + [Text("EXPANSION"), Integer(expansion)];
    }
  }

  /** The argument list CmsMerge sends with CMS.MERGE; a nil or empty weights list adds nothing. */
  method BuildCmsMergeArgs(dest: string, srcs: seq<string>, weights: seq<Int64>) returns (args: seq<Arg>)
    ensures args == CmsMergeArgs(dest, srcs, weights)
    ensures |args| == 2 + |srcs| + (if |weights| > 0 then 1 + |weights| else 0)
  {
    args := [Text(dest), Integer(|srcs|)] + Texts(srcs);
    if |weights| > 0 {
      args := args + [Text("WEIGHTS")] + Integers(weights);
    }
  }

  // ---------------------------------------------------------------------
  // Reading an argument list back

  /** What a reader of an option list finds: keyword values, flags, and the items after ITEMS. */
  datatype Options = Options(values: map<string, Arg>, flags: set<string>, items: seq<Arg>)

  const ValuedKeywords: set<string> := {"CAPACITY", "ERROR", "EXPANSION", "BUCKETSIZE", "MAXITERATIONS"}

  /**
   * Read keyword options left to right: a valued keyword takes the next
   * argument as its value, any other word is a flag, and ITEMS ends the
   * options with the rest as items.
   */
  function ReadOptions(args: seq<Arg>, acc: Options): Option<Options>
    decreases |args|
  {
    if args == [] then Some(acc)
    else if args[0] == Text("ITEMS") then Some(acc.(items := args[1..]))
    else if !args[0].Text? then None
    else if args[0].s in ValuedKeywords then
      if |args| < 2 then None
      else ReadOptions(args[2..], acc.(values := acc.values[args[0].s := args[1]]))
    else ReadOptions(args[1..], acc.(flags := acc.flags + {args[0].s}))
  }

  const NoOptions: Options := Options(map[], {}, [])

  /** m with keyword bound to the integer value, when that value is positive. */
  function WithPositive(m: map<string, Arg>, keyword: string, value: int): map<string, Arg>
  {
    if value > 0 then m[keyword := Integer(value)] else m
  }

  /** m with keyword bound to the float value, when that value is positive. */
  function WithRatio(m: map<string, Arg>, keyword: string, value: real): map<string, Arg>
  {
    if value > 0.0 then m[keyword := Float(value)] else m
  }

  /** flags with keyword added, when it is set. */
  function WithFlag(flags: set<string>, keyword: string, set_: bool): set<string>
  {
    if set_ then flags + {keyword} else flags
  }

  /** Reading an optional positive-valued keyword. */
  lemma ReadPositiveOption(keyword: string, value: int, rest: seq<Arg>, acc: Options)
    requires keyword in ValuedKeywords
    ensures ReadOptions(PositiveOption(keyword, value) + rest, acc)
         == ReadOptions(rest, acc.(values := WithPositive(acc.values, keyword, value)))
  {
    if value > 0 {
      var args := PositiveOption(keyword, value) + rest;
      assert args[2..] == rest;
    } else {
      assert PositiveOption(keyword, value) + rest == rest;
    }
  }

  /** Reading an optional positive float keyword. */
  lemma ReadRatioOption(keyword: string, value: real, rest: seq<Arg>, acc: Options)
    requires keyword in ValuedKeywords
    ensures ReadOptions(RatioOption(keyword, value) + rest, acc)
         == ReadOptions(rest, acc.(values := WithRatio(acc.values, keyword, value)))
  {
    if value > 0.0 {
      var args := RatioOption(keyword, value) + rest;
      assert args[2..] == rest;
    } else {
      assert RatioOption(keyword, value) + rest == rest;
    }
  }

  /** Reading an optional flag. */
  lemma ReadFlag(keyword: string, set_: bool, rest: seq<Arg>, acc: Options)
    requires keyword !in ValuedKeywords && keyword != "ITEMS"
    ensures ReadOptions(Flag(keyword, set_) + rest, acc)
         == ReadOptions(rest, acc.(flags := WithFlag(acc.flags, keyword, set_)))
  {
    if set_ {
      var args := Flag(keyword, set_) + rest;
      assert args[1..] == rest;
    } else {
      assert Flag(keyword, set_) + rest == rest;
    }
  }

  /** Reading ITEMS and what follows. */
  lemma ReadItems(items: seq<Arg>, acc: Options)
    ensures ReadOptions([Text("ITEMS")] + items, acc) == Some(acc.(items := items))
  {
    assert ([Text("ITEMS")] + items)[1..] == items;
  }

  /**
   * The CF.INSERT list reads back as the key, CAPACITY exactly when cap is
   * positive, NOCREATE exactly when asked, and the items in order.
   */
  lemma {:induction false} InsertArgsRoundTrip(key: string, cap: Int64, noCreate: bool, items: seq<string>)
    ensures var args := InsertArgs(key, cap, noCreate, items);
      args[0] == Text(key) &&
      ReadOptions(args[1..], NoOptions) == Some(Options(
        WithPositive(map[], "CAPACITY", cap),
        WithFlag({}, "NOCREATE", noCreate),
        Texts(items)))
  {
    var tail := [Text("ITEMS")] + Texts(items);
    var s2 := Flag("NOCREATE", noCreate) + tail;
    var s1 := PositiveOption("CAPACITY", cap) + s2;
    assert InsertArgs(key, cap, noCreate, items)[1..] == s1;
    var a1 := NoOptions.(values := WithPositive(map[], "CAPACITY", cap));
    var a2 := a1.(flags := WithFlag({}, "NOCREATE", noCreate));
    ReadPositiveOption("CAPACITY", cap, s2, NoOptions);
    ReadFlag("NOCREATE", noCreate, tail, a1);
    ReadItems(Texts(items), a2);
  }

  /** Concatenation regrouped to the right, so that a reader can peel off one option at a time. */
  lemma Regroup(k: seq<Arg>, p1: seq<Arg>, p2: seq<Arg>, p3: seq<Arg>, p4: seq<Arg>, p5: seq<Arg>, t: seq<Arg>)
    requires |k| == 1
    ensures (k + p1 + p2 + p3 + p4 + p5 + t)[1..] == p1 + (p2 + (p3 + (p4 + (p5 + t))))
  {
    assert k + p1 + p2 + p3 + p4 + p5 + t == k + (p1 + (p2 + (p3 + (p4 + (p5 + t)))));
  }

  /**
   * The BF.INSERT list reads back as the key, each of CAPACITY, ERROR and
   * EXPANSION exactly when its value is positive, the two flags exactly when
   * set, and the items in order.
   */
  lemma {:induction false} BfInsertArgsRoundTrip(key: string, cap: Int64, errorRatio: real, expansion: Int64,
                                                 noCreate: bool, nonScaling: bool, items: seq<string>)
    ensures var args := BfInsertArgs(key, cap, errorRatio, expansion, noCreate, nonScaling, items);
      args[0] == Text(key) &&
      ReadOptions(args[1..], NoOptions) == Some(Options(
        WithPositive(WithRatio(WithPositive(map[], "CAPACITY", cap), "ERROR", errorRatio), "EXPANSION", expansion),
        WithFlag(WithFlag({}, "NOCREATE", noCreate), "NONSCALING", nonScaling),
        Texts(items)))
  {
    var tail := [Text("ITEMS")] + Texts(items);
    var p1, p2, p3 := PositiveOption("CAPACITY", cap), RatioOption("ERROR", errorRatio), PositiveOption("EXPANSION", expansion);
    var p4, p5 := Flag("NOCREATE", noCreate), Flag("NONSCALING", nonScaling);
    var s5 := p5 + tail;
    var s4 := p4 + s5;
    var s3 := p3 + s4;
    var s2 := p2 + s3;
    var s1 := p1 + s2;
    var k := [Text(key)];
    assert BfInsertArgs(key, cap, errorRatio, expansion, noCreate, nonScaling, items)
        == k + p1 + p2 + p3 + p4 + p5 + tail;
    Regroup(k, p1, p2, p3, p4, p5, tail);
    var a1 := NoOptions.(values := WithPositive(map[], "CAPACITY", cap));
    var a2 := a1.(values := WithRatio(a1.values, "ERROR", errorRatio));
    var a3 := a2.(values := WithPositive(a2.values, "EXPANSION", expansion));
    var a4 := a3.(flags := WithFlag({}, "NOCREATE", noCreate));
    var a5 := a4.(flags := WithFlag(a4.flags, "NONSCALING", nonScaling));
    ReadPositiveOption("CAPACITY", cap, s2, NoOptions);
    ReadRatioOption("ERROR", errorRatio, s3, a1);
    ReadPositiveOption("EXPANSION", expansion, s4, a2);
    ReadFlag("NOCREATE", noCreate, s5, a3);
    ReadFlag("NONSCALING", nonScaling, tail, a4);
    ReadItems(Texts(items), a5);
  }

  /**
   * The CF.RESERVE list reads back as the key, the capacity (always sent),
   * and each of BUCKETSIZE, MAXITERATIONS and EXPANSION exactly when positive.
   */
  lemma {:induction false} CfReserveArgsRoundTrip(key: string, capacity: Int64, bucketSize: Int64,
                                                  maxIterations: Int64, expansion: Int64)
    ensures var args := CfReserveArgs(key, capacity, bucketSize, maxIterations, expansion);
      args[0] == Text(key) && args[1] == Integer(capacity) &&
      ReadOptions(args[2..], NoOptions) == Some(Options(
        WithPositive(WithPositive(WithPositive(map[], "BUCKETSIZE", bucketSize),
                                  "MAXITERATIONS", maxIterations), "EXPANSION", expansion),
        {}, []))
  {
    var exp := PositiveOption("EXPANSION", expansion);
    var rest := PositiveOption("MAXITERATIONS", maxIterations) + exp;
    assert CfReserveArgs(key, capacity, bucketSize, maxIterations, expansion)[2..]
        == PositiveOption("BUCKETSIZE", bucketSize) + rest;
    var a1 := NoOptions.(values := WithPositive(map[], "BUCKETSIZE", bucketSize));
    var a2 := a1.(values := WithPositive(a1.values, "MAXITERATIONS", maxIterations));
    ReadPositiveOption("BUCKETSIZE", bucketSize, rest, NoOptions);
    ReadPositiveOption("MAXITERATIONS", maxIterations, exp, a1);
    assert exp == exp + [];
    ReadPositiveOption("EXPANSION", expansion, [], a2);
  }

  /** The CMS.MERGE list as the server reads it: destination, count, sources, optional weights. */
  datatype Merge = Merge(dest: string, srcs: seq<string>, weights: seq<Int64>)

  function TextOf(a: Arg): Option<string>
  {
    if a.Text? then Some(a.s) else None
  }

  function ReadTexts(args: seq<Arg>): Option<seq<string>>
  {
    if args == [] then Some([])
    else match (TextOf(args[0]), ReadTexts(args[1..]))
      case (Some(s), Some(rest)) => Some([s] + rest)
      case _ => None
  }

  function ReadIntegers(args: seq<Arg>): Option<seq<Int64>>
  {
    if args == [] then Some([])
    else if args[0].Integer? && Strconv.MinInt64 <= args[0].n <= Strconv.MaxInt64 then
      match ReadIntegers(args[1..])
      case Some(rest) => Some([args[0].n as Int64] + rest)
      case None => None
    else None
  }

  /** Read a CMS.MERGE list: the count says how many sources follow. */
  function ReadCmsMerge(args: seq<Arg>): Option<Merge>
  {
    if |args| < 2 || !args[0].Text? || !args[1].Integer? || args[1].n < 0 || 2 + args[1].n > |args| then None
    else
      var n := args[1].n;
      var rest := args[2 + n..];
      match ReadTexts(args[2..2 + n])
      case None => None
      case Some(srcs) =>
        if rest == [] then Some(Merge(args[0].s, srcs, []))
        else if rest[0] == Text("WEIGHTS") && |rest| > 1 then
          match ReadIntegers(rest[1..])
          case Some(ws) => Some(Merge(args[0].s, srcs, ws))
          case None => None
        else None
  }

  lemma {:induction false} ReadTextsOf(items: seq<string>)
    ensures ReadTexts(Texts(items)) == Some(items)
  {
    if items != [] {
      ReadTextsOf(items[1..]);
      assert Texts(items)[1..] == Texts(items[1..]);
      assert [items[0]] + items[1..] == items;
    }
  }

  lemma {:induction false} ReadIntegersOf(ns: seq<Int64>)
    ensures ReadIntegers(Integers(ns)) == Some(ns)
  {
    if ns != [] {
      ReadIntegersOf(ns[1..]);
      assert Integers(ns)[1..] == Integers(ns[1..]);
      assert [ns[0]] + ns[1..] == ns;
    }
  }

  /**
   * The CMS.MERGE list reads back as the destination, exactly the sources in
   * order, and exactly the weights (none when the weights list is empty).
   */
  lemma CmsMergeArgsRoundTrip(dest: string, srcs: seq<string>, weights: seq<Int64>)
    ensures ReadCmsMerge(CmsMergeArgs(dest, srcs, weights)) == Some(Merge(dest, srcs, weights))
  {
    var args := CmsMergeArgs(dest, srcs, weights);
    var n := |srcs|;
    assert args[2..2 + n] == Texts(srcs);
    ReadTextsOf(srcs);
    var rest := args[2 + n..];
    if |weights| > 0 {
      assert rest == [Text("WEIGHTS")] + Integers(weights);
      assert rest[1..] == Integers(weights);
      ReadIntegersOf(weights);
    } else {
      assert rest == [];
    }
  }
}
