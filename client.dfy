/**
 * The client itself: how NewClient chooses its pool from the address list,
 * the tdMerge request with its key-count guard and override flag, and the
 * BfInsert exchange (argument list out, integer results back).
 */
module Client {
  import opened Wire
  import Strconv
  import Strings
  import Pool
  import ClientArgs
  import ClientReplies

  /** A client: the pool it takes connections from and its name. */
  datatype Client = Client(pool: Pool.ConnPool, name: string)

  // ---------------------------------------------------------------------
  // NewClient

  /** A string without the separator counts none of it, and conversely. */
  lemma {:induction false} CountZero(s: string, c: char)
    ensures Strings.Count(s, c) == 0 <==> c !in s
  {
    if s != [] {
      CountZero(s[1..], c);
      assert s == [s[0]] + s[1..];
    }
  }

  /**
   * The comma split NewClient makes has a single piece exactly when the
   * address holds no comma, and that piece is then the whole address.
   */
  lemma SplitAddresses(addr: string)
    ensures |Strings.Split(addr, ',')| == 1 <==> ',' !in addr
    ensures ',' !in addr ==> Strings.Split(addr, ',') == [addr]
    ensures Strings.Join(Strings.Split(addr, ','), ",") == addr
  {
    Strings.SplitPieces(addr, ',');
    CountZero(addr, ',');
    if ',' !in addr {
      Strings.SplitNoSep(addr, ',');
    }
    Strings.JoinSplit(addr, ',');
  }

  /**
   * NewClient(addr, name, authPass): an address without a comma gets a
   * single-host pool for that address; a comma-separated list gets a
   * multi-host pool over all its pieces, in order and empty ones included,
   * with an empty registry.
   */
  method NewClient(addr: string, name: string, authPass: Option<string>) returns (c: Client)
    ensures c.name == name
    ensures ',' !in addr ==>
              c.pool.Single? && fresh(c.pool.pool) && !c.pool.pool.closed &&
              Pool.Configured(c.pool.pool, addr, authPass)
    ensures ',' in addr ==>
              c.pool.Multi? && fresh(c.pool.multi) && c.pool.multi.Valid() &&
              c.pool.multi.hosts == Strings.Split(addr, ',') && |c.pool.multi.hosts| >= 2 &&
              Strings.Join(c.pool.multi.hosts, ",") == addr &&
              c.pool.multi.authPass == authPass && c.pool.multi.pools == map[]
  {
    var addrs := Strings.Split(addr, ',');
    SplitAddresses(addr);
    var pool: Pool.ConnPool;
    if |addrs| == 1 {
      var single := Pool.NewSingleHostPool(addrs[0], authPass);
      pool := Pool.Single(single);
    } else {
      var multi := new Pool.MultiHostPool(addrs, authPass);
      pool := Pool.Multi(multi);
    }
    c := Client(pool, name);
  }

  /** NewClientFromPool(pool, name): a client over the caller's own pool. */
  function NewClientFromPool(pool: Pool.RedisPool, name: string): (c: Client)
    ensures c.pool.Single? && c.pool.pool == pool && c.name == name
  {
    Client(Pool.Single(pool), name)
  }

  // ---------------------------------------------------------------------
  // tdMerge

  const MinimumKeysError: Error := "a minimum of one key must be merged"

  /**
   * The request tdMerge sends, or its guard's error: with numKeys below one
   * nothing is sent. The source keys travel joined by spaces in a single
   * argument, and the override flag as "1" or as an empty string.
   */
  function TdMergeCommand(toKey: string, compression: Int64, override: bool, numKeys: Int64,
                          fromKey: seq<string>): (r: Outcome<Command>)
    ensures r.Fail? <==> numKeys < 1
    ensures r.Fail? ==> r.error == MinimumKeysError
    ensures !r.Panic?
    ensures r.Ok? ==> r.value.name == "TDIGEST.MERGE" && |r.value.args| == 6 &&
                      r.value.args[5] == Text(if override then "1" else "")
  {
    if numKeys < 1 then Fail(MinimumKeysError)
    else Ok(Command("TDIGEST.MERGE",
                    [Text(toKey), Text(Strconv.FormatInt(numKeys)), Text(Strings.Join(fromKey, " ")),
                     Text("COMPRESSION"), Integer(compression),
                     Text(if override then "1" else "")]))
  }

  /** What a TDIGEST.MERGE request asks for. */
  datatype MergeRequest = MergeRequest(toKey: string, numKeys: Int64, fromKey: seq<string>,
                                       compression: Int64, override: bool)

  /** Read a TDIGEST.MERGE request back into what it asks for. */
  function ReadTdMerge(cmd: Command): Option<MergeRequest>
  {
    if cmd.name != "TDIGEST.MERGE" || |cmd.args| != 6 then None
    else
      var a := cmd.args;
      if !(a[0].Text? && a[1].Text? && a[2].Text? && a[3] == Text("COMPRESSION") && a[4].Integer?) then None
      else if !(Strconv.MinInt64 <= a[4].n <= Strconv.MaxInt64) then None
      else if a[5] != Text("1") && a[5] != Text("") then None
      else match Strconv.ParseInt(a[1].s)
        case Invalid(_) => None
        case Parsed(n) =>
          Some(MergeRequest(a[0].s, n, Strings.Split(a[2].s, ' '), a[4].n, a[5] == Text("1")))
  }

  /**
   * A request tdMerge sends reads back as what it was asked for, provided
   * there is at least one source key and none holds a space (the keys share
   * one space-separated argument).
   */
  lemma TdMergeRoundTrip(toKey: string, compression: Int64, override: bool, numKeys: Int64,
                         fromKey: seq<string>)
    requires numKeys >= 1
    requires |fromKey| >= 1 && forall i :: 0 <= i < |fromKey| ==> ' ' !in fromKey[i]
    ensures TdMergeCommand(toKey, compression, override, numKeys, fromKey).Ok?
    ensures ReadTdMerge(TdMergeCommand(toKey, compression, override, numKeys, fromKey).value)
            == Some(MergeRequest(toKey, numKeys, fromKey, compression, override))
  {
    Strconv.FormatIntRoundTrip(numKeys);
    Strings.SplitJoin(fromKey, ' ');
  }

  /** TdMerge: compression 100, no override. */
  function TdMerge(toKey: string, numKeys: Int64, fromKey: seq<string>): (r: Outcome<Command>)
    ensures r.Fail? <==> numKeys < 1
    ensures r.Ok? ==>
              ReadTdMerge(r.value).Some? &&
              ReadTdMerge(r.value).value.toKey == toKey && ReadTdMerge(r.value).value.numKeys == numKeys &&
              ReadTdMerge(r.value).value.compression == 100 && !ReadTdMerge(r.value).value.override
  {
    Strconv.FormatIntRoundTrip(numKeys);
    TdMergeCommand(toKey, 100, false, numKeys, fromKey)
  }

  /** TdMergeWithCompression: the given compression, no override. */
  function TdMergeWithCompression(toKey: string, compression: Int64, numKeys: Int64, fromKey: seq<string>)
    : (r: Outcome<Command>)
    ensures r.Fail? <==> numKeys < 1
    ensures r.Ok? ==>
              ReadTdMerge(r.value).Some? &&
              ReadTdMerge(r.value).value.toKey == toKey && ReadTdMerge(r.value).value.numKeys == numKeys &&
              ReadTdMerge(r.value).value.compression == compression && !ReadTdMerge(r.value).value.override
  {
    Strconv.FormatIntRoundTrip(numKeys);
    TdMergeCommand(toKey, compression, false, numKeys, fromKey)
  }

  /** TdMergeWithOverride as written: the override argument is not used and "1" is always sent. */
  function TdMergeWithOverrideAsWritten(toKey: string, override: bool, numKeys: Int64, fromKey: seq<string>)
    : (r: Outcome<Command>)
    ensures r.Fail? <==> numKeys < 1
    ensures r.Ok? ==>
              ReadTdMerge(r.value).Some? &&
              ReadTdMerge(r.value).value.toKey == toKey && ReadTdMerge(r.value).value.numKeys == numKeys &&
              ReadTdMerge(r.value).value.compression == 100 && ReadTdMerge(r.value).value.override
  {
    Strconv.FormatIntRoundTrip(numKeys);
    TdMergeCommand(toKey, 100, true, numKeys, fromKey)
  }

  /** Asking not to override still sends the override flag. */
  lemma TdMergeWithOverrideIgnoresFlag()
    ensures TdMergeWithOverrideAsWritten("to", false, 1, ["from"]).Ok?
    ensures ReadTdMerge(TdMergeWithOverrideAsWritten("to", false, 1, ["from"]).value)
            == Some(MergeRequest("to", 1, ["from"], 100, true))
  {
    TdMergeRoundTrip("to", 100, true, 1, ["from"]);
  }

  /** TdMergeWithOverride, honouring its override argument. */
  function TdMergeWithOverride(toKey: string, override: bool, numKeys: Int64, fromKey: seq<string>)
    : (r: Outcome<Command>)
    ensures r.Fail? <==> numKeys < 1
    ensures r.Ok? ==>
              ReadTdMerge(r.value).Some? &&
              ReadTdMerge(r.value).value.toKey == toKey && ReadTdMerge(r.value).value.numKeys == numKeys &&
              ReadTdMerge(r.value).value.compression == 100 && ReadTdMerge(r.value).value.override == override
  {
    Strconv.FormatIntRoundTrip(numKeys);
    TdMergeCommand(toKey, 100, override, numKeys, fromKey)
  }

  /** TdMergeWithCompressionAndOverride: the given compression, override set. */
  function TdMergeWithCompressionAndOverride(toKey: string, compression: Int64, numKeys: Int64,
                                             fromKey: seq<string>): (r: Outcome<Command>)
    ensures r.Fail? <==> numKeys < 1
    ensures r.Ok? ==>
              ReadTdMerge(r.value).Some? &&
              ReadTdMerge(r.value).value.toKey == toKey && ReadTdMerge(r.value).value.numKeys == numKeys &&
              ReadTdMerge(r.value).value.compression == compression && ReadTdMerge(r.value).value.override
  {
    Strconv.FormatIntRoundTrip(numKeys);
    TdMergeCommand(toKey, compression, true, numKeys, fromKey)
  }

  // ---------------------------------------------------------------------
  // BfInsert

  /**
   * BfInsert, given the reply and transport error of its exchange: it sends
   * BF.INSERT with the option layout, and returns the integers of the
   * longest convertible prefix of the reply array together with the first
   * conversion error; a reply that is not an array (or a transport error)
   * gives no results and that error.
   */
  method BfInsert(key: string, cap: Int64, errorRatio: real, expansion: Int64, noCreate: bool,
                  nonScaling: bool, items: seq<string>, reply: Reply, doErr: Option<Error>)
    returns (sent: Command, res: seq<Int64>, err: Option<Error>)
    ensures sent == Command("BF.INSERT", ClientArgs.BfInsertArgs(key, cap, errorRatio, expansion,
                                                                  noCreate, nonScaling, items))
    ensures Values(reply, doErr).Fail? ==> res == [] && err == Some(Values(reply, doErr).error)
    ensures Values(reply, doErr).Ok? ==>
              |res| <= |reply.elems| &&
              (forall j :: 0 <= j < |res| ==> AsInt64(reply.elems[j]) == Ok(res[j])) &&
              (|res| < |reply.elems| ==> AsInt64(reply.elems[|res|]).Fail? &&
                                         err == Some(AsInt64(reply.elems[|res|]).error)) &&
              (|res| == |reply.elems| ==> err == None)
    ensures err.None? ==> reply.Array? && |res| == |reply.elems|
  {
    var args := ClientArgs.BuildBfInsertArgs(key, cap, errorRatio, expansion, noCreate, nonScaling, items);
    sent := Command("BF.INSERT", args);
    var vs := Values(reply, doErr);
    if vs.Fail? {
      return sent, [], Some(vs.error);
    }
    res, err := ClientReplies.CollectInts(vs.value);
  }
}
