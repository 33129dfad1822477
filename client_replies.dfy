/**
 * How the client reads replies: flat key/value arrays turned into maps
 * (ParseInfoReply, Info, TopkInfo) or into the T-Digest info record
 * (ParseTDigestInfo), the SCANDUMP pair, and the BF.INSERT result list.
 *
 * Each parser is a method with the source's loop over the pairs, proved
 * equal to a fold over the pairs; lemmas say what the fold yields: which
 * keys end up in the map, that the last occurrence of a key wins, and when
 * the result is an error or a panic.
 */
module ClientReplies {
  import opened Wire
  import Strconv

  // ---------------------------------------------------------------------
  // Key/value folds

  /** Fold the pairs (values[2k], values[2k+1]) into m, reading each with entry. */
  function FoldPairs<V>(values: seq<Reply>, m: map<string, V>, entry: (Reply, Reply) -> Outcome<(string, V)>)
    : Outcome<map<string, V>>
    requires |values| % 2 == 0
    decreases |values|
  {
    if values == [] then Ok(m)
    else match entry(values[0], values[1])
      case Ok(kv) => FoldPairs(values[2..], m[kv.0 := kv.1], entry)
      case Fail(e) => Fail(e)
      case Panic(p) => Panic(p)
  }

  /** One step of the fold, at an even position i. */
  lemma FoldPairsStep<V>(values: seq<Reply>, i: nat, m: map<string, V>, entry: (Reply, Reply) -> Outcome<(string, V)>)
    requires |values| % 2 == 0 && i % 2 == 0 && i + 2 <= |values|
    ensures FoldPairs(values[i..], m, entry) ==
            match entry(values[i], values[i + 1])
            case Ok(kv) => FoldPairs(values[i + 2..], m[kv.0 := kv.1], entry)
            case Fail(e) => Fail(e)
            case Panic(p) => Panic(p)
  {
    assert values[i..][2..] == values[i + 2..];
  }

  /** The value the last pair read as key k carries, if any pair is. */
  function LastEntry<V>(values: seq<Reply>, entry: (Reply, Reply) -> Outcome<(string, V)>, k: string): Option<V>
    requires |values| % 2 == 0
    decreases |values|
  {
    if values == [] then None
    else match LastEntry(values[2..], entry, k)
      case Some(v) => Some(v)
      case None =>
        var e := entry(values[0], values[1]);
        if e.Ok? && e.value.0 == k then Some(e.value.1) else None
  }

  /** Every pair of values reads. */
  ghost predicate EveryPairReads<V>(values: seq<Reply>, entry: (Reply, Reply) -> Outcome<(string, V)>)
    requires |values| % 2 == 0
  {
    forall j :: 0 <= j < |values| / 2 ==> entry(values[2 * j], values[2 * j + 1]).Ok?
  }

  /** Every pair reads exactly when the first does and every later one does. */
  lemma EveryPairReadsCons<V>(values: seq<Reply>, entry: (Reply, Reply) -> Outcome<(string, V)>)
    requires |values| % 2 == 0 && values != []
    ensures EveryPairReads(values, entry) <==> entry(values[0], values[1]).Ok? && EveryPairReads(values[2..], entry)
  {
    var rest := values[2..];
    if entry(values[0], values[1]).Ok? && EveryPairReads(rest, entry) {
      forall j | 0 <= j < |values| / 2
        ensures entry(values[2 * j], values[2 * j + 1]).Ok?
      {
        if j > 0 {
          assert rest[2 * (j - 1)] == values[2 * j] && rest[2 * (j - 1) + 1] == values[2 * j + 1];
        }
      }
    }
    if EveryPairReads(values, entry) {
      assert entry(values[2 * 0], values[2 * 0 + 1]).Ok?;
      forall j | 0 <= j < |rest| / 2
        ensures entry(rest[2 * j], rest[2 * j + 1]).Ok?
      {
        assert rest[2 * j] == values[2 * (j + 1)] && rest[2 * j + 1] == values[2 * (j + 1) + 1];
      }
    }
  }

  /** The fold succeeds exactly when every pair reads. */
  lemma {:induction false} FoldPairsOk<V>(values: seq<Reply>, m: map<string, V>, entry: (Reply, Reply) -> Outcome<(string, V)>)
    requires |values| % 2 == 0
    ensures FoldPairs(values, m, entry).Ok? <==> EveryPairReads(values, entry)
  {
    if values != [] {
      EveryPairReadsCons(values, entry);
      if entry(values[0], values[1]).Ok? {
        var kv := entry(values[0], values[1]).value;
        FoldPairsOk(values[2..], m[kv.0 := kv.1], entry);
      }
    }
  }

  /**
   * What a successful fold holds: a key is present exactly when it was in m
   * or some pair reads as that key, its value is the one of the LAST such
   * pair, and the map grows by at most one entry per pair.
   */
  lemma {:induction false} FoldPairsLookup<V>(values: seq<Reply>, m: map<string, V>, entry: (Reply, Reply) -> Outcome<(string, V)>)
    requires |values| % 2 == 0
    requires FoldPairs(values, m, entry).Ok?
    ensures var r := FoldPairs(values, m, entry).value;
      (forall k :: k in r <==> k in m || LastEntry(values, entry, k).Some?) &&
      (forall k :: k in r ==> r[k] == match LastEntry(values, entry, k) case Some(v) => v case None => m[k]) &&
      |r| <= |m| + |values| / 2
  {
    if values != [] {
      var kv := entry(values[0], values[1]).value;
      var m' := m[kv.0 := kv.1];
      FoldPairsLookup(values[2..], m', entry);
      assert |m'| <= |m| + 1;
    }
  }

  function ConversionPanic(r: Reply, want: string): string
  {
    "interface conversion: interface {} is " + (if r.Nil? then "nil" else TypeName(r)) + ", not " + want
  }

  // ---------------------------------------------------------------------
  // ParseInfoReply (CMS.INFO, CF.INFO, TOPK.LIST WITHCOUNT)

  /** One pair as ParseInfoReply reads it: a status-string key and an integer, or a panic. */
  function InfoReplyEntry(key: Reply, value: Reply): Outcome<(string, Int64)>
  {
    if !key.Str? then Panic(ConversionPanic(key, "string"))
    else if !value.Int? then Panic(ConversionPanic(value, "int64"))
    else Ok((key.text, value.n))
  }

  const OddReplyError: Error := "expects even number of values result"

  /**
   * ParseInfoReply(values, err): an incoming error passes through unchanged,
   * an odd-length reply is an error, and otherwise the pairs fill a map.
   */
  method ParseInfoReply(values: seq<Reply>, err: Option<Error>) returns (r: Outcome<map<string, Int64>>)
    ensures err.Some? ==> r == Fail(err.value)
    ensures err.None? && |values| % 2 != 0 ==> r == Fail(OddReplyError)
    ensures err.None? && |values| % 2 == 0 ==> r == FoldPairs(values, map[], InfoReplyEntry)
  {
    if err.Some? {
      return Fail(err.value);
    }
    if |values| % 2 != 0 {
      return Fail(OddReplyError);
    }
    var m: map<string, Int64> := map[];
    var i := 0;
    while i < |values|
      invariant 0 <= i <= |values| && i % 2 == 0
      invariant FoldPairs(values, map[], InfoReplyEntry) == FoldPairs(values[i..], m, InfoReplyEntry)
    {
      FoldPairsStep(values, i, m, InfoReplyEntry);
      if !values[i].Str? {
        return Panic(ConversionPanic(values[i], "string"));
      }
      if !values[i + 1].Int? {
        return Panic(ConversionPanic(values[i + 1], "int64"));
      }
      m := m[values[i].text := values[i + 1].n];
      i := i + 2;
    }
    assert values[i..] == [];
    r := Ok(m);
  }

  /**
   * An even-length ParseInfoReply input maps each status-string key to the
   * integer of its last pair; any other key or value type panics.
   */
  lemma InfoReplyMeaning(values: seq<Reply>)
    requires |values| % 2 == 0
    ensures var r := FoldPairs(values, map[], InfoReplyEntry);
      (r.Ok? <==> forall j :: 0 <= j < |values| / 2 ==> values[2 * j].Str? && values[2 * j + 1].Int?) &&
      (!r.Ok? ==> r.Panic?) &&
      (r.Ok? ==> |r.value| <= |values| / 2 &&
                 forall k :: (k in r.value <==> LastEntry(values, InfoReplyEntry, k).Some?) &&
                             (k in r.value ==> r.value[k] == LastEntry(values, InfoReplyEntry, k).value))
  {
    FoldPairsOk(values, map[], InfoReplyEntry);
    FoldPairsNeverFails(values, map[]);
    if FoldPairs(values, map[], InfoReplyEntry).Ok? {
      FoldPairsLookup(values, map[], InfoReplyEntry);
    }
  }

  lemma {:induction false} FoldPairsNeverFails(values: seq<Reply>, m: map<string, Int64>)
    requires |values| % 2 == 0
    ensures !FoldPairs(values, m, InfoReplyEntry).Fail?
  {
    if values != [] && InfoReplyEntry(values[0], values[1]).Ok? {
      var kv := InfoReplyEntry(values[0], values[1]).value;
      FoldPairsNeverFails(values[2..], m[kv.0 := kv.1]);
    }
  }

  // ---------------------------------------------------------------------
  // Info (BF.INFO)

  /** One pair as Info reads it: redis.String on the key, redis.Int64 on the value. */
  function InfoEntry(key: Reply, value: Reply): Outcome<(string, Int64)>
  {
    match AsString(key)
    case Ok(k) =>
      (match AsInt64(value)
       case Ok(n) => Ok((k, n))
       case Fail(e) => Fail(e)
       case Panic(p) => Panic(p))
    case Fail(e) => Fail(e)
    case Panic(p) => Panic(p)
  }

  const InfoOddError: Error := "Info expects even number of values result"

  /**
   * The reply handling of Info: errors from the exchange and from
   * redis.Values pass through, an odd length is an error, and the pairs fill
   * a map whose first unreadable key or value is the error.
   */
  method Info(reply: Reply, doErr: Option<Error>) returns (r: Outcome<map<string, Int64>>)
    ensures doErr.Some? ==> r == Fail(doErr.value)
    ensures Values(reply, doErr).Fail? ==> r == Fail(Values(reply, doErr).error)
    ensures Values(reply, doErr).Ok? && |reply.elems| % 2 != 0 ==> r == Fail(InfoOddError)
    ensures Values(reply, doErr).Ok? && |reply.elems| % 2 == 0 ==> r == FoldPairs(reply.elems, map[], InfoEntry)
    ensures !r.Panic?
  {
    if doErr.Some? {
      return Fail(doErr.value);
    }
    var vs := Values(reply, None);
    if vs.Fail? {
      return Fail(vs.error);
    }
    var values := vs.value;
    if |values| % 2 != 0 {
      return Fail(InfoOddError);
    }
    var info: map<string, Int64> := map[];
    var i := 0;
    while i < |values|
      invariant 0 <= i <= |values| && i % 2 == 0
      invariant FoldPairs(values, map[], InfoEntry) == FoldPairs(values[i..], info, InfoEntry)
    {
      FoldPairsStep(values, i, info, InfoEntry);
      var key := AsString(values[i]);
      if key.Fail? {
        return Fail(key.error);
      }
      var n := AsInt64(values[i + 1]);
      if n.Fail? {
        return Fail(n.error);
      }
      info := info[key.value := n.value];
      i := i + 2;
    }
    assert values[i..] == [];
    r := Ok(info);
    InfoNeverPanics(values, map[]);
  }

  lemma {:induction false} InfoNeverPanics(values: seq<Reply>, m: map<string, Int64>)
    requires |values| % 2 == 0
    ensures !FoldPairs(values, m, InfoEntry).Panic?
  {
    if values != [] && InfoEntry(values[0], values[1]).Ok? {
      var kv := InfoEntry(values[0], values[1]).value;
      InfoNeverPanics(values[2..], m[kv.0 := kv.1]);
    }
  }

  // ---------------------------------------------------------------------
  // TopkInfo (TOPK.INFO)

  /**
   * One pair as TopkInfo reads it: the key must be a status string (else a
   * panic); a bulk-string value is taken as text, an integer is written in
   * decimal, and any other value is an error naming its type.
   */
  function TopkEntry(key: Reply, value: Reply): Outcome<(string, string)>
  {
    if !key.Str? then Panic(ConversionPanic(key, "string"))
    else match value
      case Bytes(data) => Ok((key.text, data))
      case Int(n) => Ok((key.text, Strconv.FormatInt(n)))
      case _ => Fail("unexpected element type for (Ints,String), got type " + TypeName(value))
  }

  const TopkOddError: Error := "expects even number of values result"

  /** The reply handling of TopkInfo. */
  method TopkInfo(reply: Reply, doErr: Option<Error>) returns (r: Outcome<map<string, string>>)
    ensures Values(reply, doErr).Fail? ==> r == Fail(Values(reply, doErr).error)
    ensures Values(reply, doErr).Ok? && |reply.elems| % 2 != 0 ==> r == Fail(TopkOddError)
    ensures Values(reply, doErr).Ok? && |reply.elems| % 2 == 0 ==> r == FoldPairs(reply.elems, map[], TopkEntry)
  {
    var vs := Values(reply, doErr);
    if vs.Fail? {
      return Fail(vs.error);
    }
    var values := vs.value;
    if |values| % 2 != 0 {
      return Fail(TopkOddError);
    }
    var m: map<string, string> := map[];
    var i := 0;
    while i < |values|
      invariant 0 <= i <= |values| && i % 2 == 0
      invariant FoldPairs(values, map[], TopkEntry) == FoldPairs(values[i..], m, TopkEntry)
    {
      FoldPairsStep(values, i, m, TopkEntry);
      if !values[i].Str? {
        return Panic(ConversionPanic(values[i], "string"));
      }
      var k := values[i].text;
      var v := values[i + 1];
      if v.Bytes? {
        m := m[k := v.data];
      } else if v.Int? {
        m := m[k := Strconv.FormatInt(v.n)];
      } else {
        return Fail("unexpected element type for (Ints,String), got type " + TypeName(v));
      }
      i := i + 2;
    }
    assert values[i..] == [];
    r := Ok(m);
  }

  /** The value of the last pair whose key is the status string k, if any. */
  function LastValueFor(values: seq<Reply>, k: string): Option<Reply>
    requires |values| % 2 == 0
    decreases |values|
  {
    if values == [] then None
    else match LastValueFor(values[2..], k)
      case Some(v) => Some(v)
      case None => if values[0] == Str(k) then Some(values[1]) else None
  }

  /** When every pair reads, the last TopkInfo entry for k is the text of the last reply value for k. */
  lemma {:induction false} TopkLastEntry(values: seq<Reply>, k: string)
    requires |values| % 2 == 0
    requires EveryPairReads(values, TopkEntry)
    ensures LastEntry(values, TopkEntry, k).Some? <==> LastValueFor(values, k).Some?
    ensures LastValueFor(values, k).Some? && LastValueFor(values, k).value.Int? ==>
              LastEntry(values, TopkEntry, k) == Some(Strconv.FormatInt(LastValueFor(values, k).value.n))
    ensures LastValueFor(values, k).Some? && LastValueFor(values, k).value.Bytes? ==>
              LastEntry(values, TopkEntry, k) == Some(LastValueFor(values, k).value.data)
  {
    if values != [] {
      EveryPairReadsCons(values, TopkEntry);
      TopkLastEntry(values[2..], k);
    }
  }

  /**
   * What TopkInfo stores for a key: k is present exactly when some pair has
   * the status-string key k; when the last such pair carries the integer n,
   * the text stored is n in decimal and parses back to n, and when it
   * carries a bulk string, that string is stored as it is.
   */
  lemma TopkStoredValues(values: seq<Reply>, k: string)
    requires |values| % 2 == 0
    requires FoldPairs(values, map[], TopkEntry).Ok?
    ensures var m := FoldPairs(values, map[], TopkEntry).value;
      (k in m <==> LastValueFor(values, k).Some?) &&
      (forall n: Int64 :: LastValueFor(values, k) == Some(Int(n)) ==>
         m[k] == Strconv.FormatInt(n) && Strconv.ParseInt(m[k]) == Strconv.Parsed(n)) &&
      (forall d :: LastValueFor(values, k) == Some(Bytes(d)) ==> m[k] == d)
  {
    FoldPairsOk(values, map[], TopkEntry);
    TopkLastEntry(values, k);
    FoldPairsLookup(values, map[], TopkEntry);
    if LastValueFor(values, k).Some? && LastValueFor(values, k).value.Int? {
      Strconv.FormatIntRoundTrip(LastValueFor(values, k).value.n);
    }
  }

  // ---------------------------------------------------------------------
  // ParseTDigestInfo (TDIGEST.INFO)

  /** The T-Digest properties the client reports. */
  datatype TDigestInfo = TDigestInfo(
    compression: Int64, capacity: Int64, mergedNodes: Int64, unmergedNodes: Int64,
    mergedWeight: Int64, unmergedWeight: Int64, totalCompressions: Int64)

  const ZeroInfo: TDigestInfo := TDigestInfo(0, 0, 0, 0, 0, 0, 0)

  const Labels: set<string> := {"Compression", "Capacity", "Merged nodes", "Unmerged nodes",
                                "Merged weight", "Unmerged weight", "Total compressions"}

  /** The field a recognised label names. */
  function Field(info: TDigestInfo, name: string): Int64
    requires name in Labels
  {
    match name
    case "Compression" => info.compression
    case "Capacity" => info.capacity
    case "Merged nodes" => info.mergedNodes
    case "Unmerged nodes" => info.unmergedNodes
    case "Merged weight" => info.mergedWeight
    case "Unmerged weight" => info.unmergedWeight
    case _ => info.totalCompressions
  }

  /** info with the field a recognised label names set to n. */
  function SetField(info: TDigestInfo, name: string, n: Int64): (r: TDigestInfo)
    requires name in Labels
    ensures Field(r, name) == n
    ensures forall other :: other in Labels && other != name ==> Field(r, other) == Field(info, other)
  {
    match name
    case "Compression" => info.(compression := n)
    case "Capacity" => info.(capacity := n)
    case "Merged nodes" => info.(mergedNodes := n)
    case "Unmerged nodes" => info.(unmergedNodes := n)
    case "Merged weight" => info.(mergedWeight := n)
    case "Unmerged weight" => info.(unmergedWeight := n)
    case _ => info.(totalCompressions := n)
  }

  /**
   * The pairs as ParseTDigestInfo reads them: every key through
   * redis.String; a recognised label's value through redis.Int64 into its
   * field; other labels are skipped without looking at their value.
   */
  function TDigestPairs(values: seq<Reply>, info: TDigestInfo): Outcome<TDigestInfo>
    requires |values| % 2 == 0
    decreases |values|
  {
    if values == [] then Ok(info)
    else match AsString(values[0])
      case Ok(key) =>
        if key !in Labels then TDigestPairs(values[2..], info)
        else (match AsInt64(values[1])
              case Ok(n) => TDigestPairs(values[2..], SetField(info, key, n))
              case Fail(e) => Fail(e)
              case Panic(p) => Panic(p))
      case Fail(e) => Fail(e)
      case Panic(p) => Panic(p)
  }

  /** The value paired with the last key that reads as name, if any. */
  function LastFor(values: seq<Reply>, name: string): Option<Reply>
    requires |values| % 2 == 0
    decreases |values|
  {
    if values == [] then None
    else match LastFor(values[2..], name)
      case Some(v) => Some(v)
      case None => if AsString(values[0]) == Ok(name) then Some(values[1]) else None
  }

  const TDigestOddError: Error := "ParseInfo expects even number of values result"

  /**
   * ParseTDigestInfo, with the error from redis.Values returned (see
   * ParseTDigestInfoAsWritten for the source's return of the incoming error):
   * an odd length is an error, and so is any unreadable key or recognised
   * value, each with a zeroed record.
   */
  method ParseTDigestInfo(result: Reply, err: Option<Error>) returns (info: TDigestInfo, outErr: Option<Error>)
    ensures outErr.None? ==> err.None? && result.Array? && |result.elems| % 2 == 0
    ensures Values(result, err).Fail? ==> info == ZeroInfo && outErr == Some(Values(result, err).error)
    ensures Values(result, err).Ok? && |result.elems| % 2 != 0 ==> info == ZeroInfo && outErr == Some(TDigestOddError)
    ensures Values(result, err).Ok? && |result.elems| % 2 == 0 ==>
              match TDigestPairs(result.elems, ZeroInfo)
              case Ok(r) => info == r && outErr == None
              case Fail(e) => info == ZeroInfo && outErr == Some(e)
              case Panic(_) => false
  {
    var vs := Values(result, err);
    if vs.Fail? {
      return ZeroInfo, Some(vs.error);
    }
    var values := vs.value;
    if |values| % 2 != 0 {
      return ZeroInfo, Some(TDigestOddError);
    }
    info := ZeroInfo;
    var i := 0;
    while i < |values|
      invariant 0 <= i <= |values| && i % 2 == 0
      invariant TDigestPairs(values, ZeroInfo) == TDigestPairs(values[i..], info)
    {
      assert values[i..][2..] == values[i + 2..];
      var key := AsString(values[i]);
      if key.Fail? {
        return ZeroInfo, Some(key.error);
      }
      if key.value in Labels {
        var n := AsInt64(values[i + 1]);
        if n.Fail? {
          return ZeroInfo, Some(n.error);
        }
        info := SetField(info, key.value, n.value);
      }
      i := i + 2;
    }
    assert values[i..] == [];
    TDigestNeverPanics(values, ZeroInfo);
    outErr := None;
  }

  lemma {:induction false} TDigestNeverPanics(values: seq<Reply>, info: TDigestInfo)
    requires |values| % 2 == 0
    ensures !TDigestPairs(values, info).Panic?
  {
    if values != [] && AsString(values[0]).Ok? {
      var key := AsString(values[0]).value;
      if key !in Labels {
        TDigestNeverPanics(values[2..], info);
      } else if AsInt64(values[1]).Ok? {
        TDigestNeverPanics(values[2..], SetField(info, key, AsInt64(values[1]).value));
      }
    }
  }

  /**
   * Each recognised field of a successful read holds the integer of the last
   * pair with that name, and keeps its starting value when no pair has it:
   * unrecognised labels change nothing.
   */
  lemma {:induction false} TDigestFields(values: seq<Reply>, info: TDigestInfo, name: string)
    requires |values| % 2 == 0 && name in Labels
    requires TDigestPairs(values, info).Ok?
    ensures var r := TDigestPairs(values, info).value;
      match LastFor(values, name)
      case None => Field(r, name) == Field(info, name)
      case Some(v) => AsInt64(v).Ok? && Field(r, name) == AsInt64(v).value
  {
    if values != [] {
      var key := AsString(values[0]).value;
      var next := if key in Labels then SetField(info, key, AsInt64(values[1]).value) else info;
      TDigestFields(values[2..], next, name);
    }
  }

  /**
   * ParseTDigestInfo as written: when redis.Values fails, the source returns
   * the incoming err rather than the conversion error.
   */
  function ParseTDigestInfoAsWritten(result: Reply, err: Option<Error>): (r: (TDigestInfo, Option<Error>))
    ensures Values(result, err).Fail? ==> r == (ZeroInfo, err)
    ensures r.1.None? && err.None? && result.Array? ==> |result.elems| % 2 == 0
  {
    var vs := Values(result, err);
    if vs.Fail? then (ZeroInfo, err)
    else if |vs.value| % 2 != 0 then (ZeroInfo, Some(TDigestOddError))
    else match TDigestPairs(vs.value, ZeroInfo)
      case Ok(r) => (r, None)
      case Fail(e) => (ZeroInfo, Some(e))
      case Panic(p) => (ZeroInfo, Some(p))
  }

  /**
   * Called directly, as written, with an integer or a nil reply and no
   * error (say ParseTDigestInfo(int64(5), nil)), the parser gives an
   * all-zero record and no error at all. TdInfo does not reach this case.
   */
  lemma TDigestAsWrittenLosesError()
    ensures Values(Int(5), None).Fail?
    ensures ParseTDigestInfoAsWritten(Int(5), None) == (ZeroInfo, None)
    ensures Values(Nil, None).Fail?
    ensures ParseTDigestInfoAsWritten(Nil, None) == (ZeroInfo, None)
  {
  }

  /**
   * TdInfo: ParseTDigestInfo(redis.Values(conn.Do("TDIGEST.INFO", key))).
   * The inner redis.Values has already turned a reply that is not an array
   * into an error, and the nil slice it returns beside that error reaches
   * the parser as an empty array; so even the parser as written reports it.
   */
  function TdInfo(reply: Reply, doErr: Option<Error>): (r: (TDigestInfo, Option<Error>))
    ensures Values(reply, doErr).Fail? ==> r == (ZeroInfo, Some(Values(reply, doErr).error))
    ensures r.1.None? ==> doErr.None? && reply.Array? && |reply.elems| % 2 == 0
    ensures Values(reply, doErr).Ok? ==> r == ParseTDigestInfoAsWritten(reply, None)
  {
    var vs := Values(reply, doErr);
    if vs.Fail? then ParseTDigestInfoAsWritten(Array([]), Some(vs.error))
    else ParseTDigestInfoAsWritten(Array(vs.value), None)
  }

  // ---------------------------------------------------------------------
  // BfScanDump / CfScanDump

  /**
   * The SCANDUMP reply shape: an error from the exchange or from
   * redis.Values comes back with iterator 0; a list that is not exactly two
   * long gives iterator 0, no chunk and NO error; otherwise the first element
   * must be an integer and the second nil (no chunk) or a bulk string (the
   * chunk), and anything else panics.
   */
  function ScanDump(reply: Reply, doErr: Option<Error>): (r: Outcome<(Int64, Option<string>)>)
    ensures r.Fail? <==> Values(reply, doErr).Fail?
    ensures r.Ok? && r.value.1.Some? <==>
              doErr.None? && reply.Array? && |reply.elems| == 2 && reply.elems[0].Int? && reply.elems[1].Bytes?
    ensures r.Ok? && r.value.1.Some? ==> r.value == (reply.elems[0].n, Some(reply.elems[1].data))
    ensures r.Panic? <==>
              doErr.None? && reply.Array? && |reply.elems| == 2 &&
              (!reply.elems[0].Int? || !(reply.elems[1].Nil? || reply.elems[1].Bytes?))
    ensures r.Ok? ==> doErr.None? && reply.Array?
    ensures r.Ok? && |reply.elems| != 2 ==> r.value == (0, None)
    ensures r.Ok? && |reply.elems| == 2 ==> reply.elems[0].Int? && r.value.0 == reply.elems[0].n
    ensures r.Ok? && |reply.elems| == 2 && reply.elems[1].Nil? ==> r.value == (reply.elems[0].n, None)
  {
    var vs := Values(reply, doErr);
    if vs.Fail? then Fail(vs.error)
    else if |vs.value| != 2 then Ok((0, None))
    else if !vs.value[0].Int? then Panic(ConversionPanic(vs.value[0], "int64"))
    else if vs.value[1].Nil? then Ok((vs.value[0].n, None))
    else if !vs.value[1].Bytes? then Panic(ConversionPanic(vs.value[1], "[]uint8"))
    else Ok((vs.value[0].n, Some(vs.value[1].data)))
  }

  // ---------------------------------------------------------------------
  // BF.INSERT results

  /**
   * The result loop of BfInsert: the integers read from the longest prefix
   * of resp whose elements convert, and the conversion error of the first
   * element that does not.
   */
  method CollectInts(resp: seq<Reply>) returns (res: seq<Int64>, err: Option<Error>)
    ensures |res| <= |resp|
    ensures forall j :: 0 <= j < |res| ==> AsInt64(resp[j]) == Ok(res[j])
    ensures |res| < |resp| ==> AsInt64(resp[|res|]).Fail? && err == Some(AsInt64(resp[|res|]).error)
    ensures |res| == |resp| ==> err == None
  {
    res := [];
    err := None;
    var i := 0;
    while i < |resp|
      invariant i == |res| <= |resp|
      invariant forall j :: 0 <= j < i ==> AsInt64(resp[j]) == Ok(res[j])
      invariant err == None
    {
      var n := AsInt64(resp[i]);
      if n.Ok? {
        res := res + [n.value];
      } else {
        err := Some(n.error);
        break;
      }
      i := i + 1;
    }
  }
}
