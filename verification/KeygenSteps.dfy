/** The local computation of a party of key generation between two rounds: loops over the party numbers
    with a counter j that moves through the answers. None stands for a panic. */
module KeygenSteps {
  import opened Wrappers
  import opened Modular
  import opened Slots
  import opened Vectors
  import opened Library
  import opened KeyFiles
  import opened Codec
  import opened Keygen

  /** The commitments heard, with the own one inserted at its slot. */
  method AfterRound1(n: nat, me: Part, partyNum: nat, ans: seq<Msg>) returns (r: Option<Local1>)
    requires 1 <= partyNum <= n && |ans| == n - 1
    ensures r == Next1(n, me, partyNum - 1, ans)
  {
    var bc1Vec := new Vec<Msg>();
    for j := 0 to |ans|
      invariant bc1Vec.items == ans[..j]
      invariant forall l :: 0 <= l < j ==> ans[l].First?
    {
      if !ans[j].First? {
        return None;
      }
      bc1Vec.Push(ans[j]);
    }
    assert ans[..|ans|] == ans;
    bc1Vec.Insert(partyNum - 1, OwnFirst(me));
    r := Some(Local1(bc1Vec.items));
  }

  /** The x-coordinate of the Diffie-Hellman point, padded to 32 bytes. */
  method EncKey(C: Curve, y: Point, u: int) returns (key: Option<seq<Byte>>)
    requires C.q > 0
    ensures key == AesKey(C, y, u)
  {
    hide ToBytes;
    var x := XCoord(C, Times(y, u));
    if x.None? || x.value < 0 {
      return None;
    }
    var keyBytes := ToBytes(x.value);
    if |keyBytes| > 32 {
      return None;
    }
    var template := Zeros(32 - |keyBytes|);
    template := template + keyBytes;
    key := Some(template);
  }

  method AfterRound2(C: Curve, t: nat, n: nat, me: Part, partyNum: nat, l1: Local1, ans: seq<Msg>) returns (r: Option<Local2>)
    requires C.q > 0 && 1 <= partyNum <= n && |ans| == n - 1
    ensures r == Next2(C, t, n, me, partyNum - 1, l1, ans)
  {
    hide AesKey, Front, Rebuild, OpensAll, ShareVss, SumPoints;
    var own := OwnOpening(me);
    var decomVec: seq<Msg>, pointVec: seq<Point>, encKeys: seq<seq<Byte>> := [], [], [];
    var j := 0;
    FrontEnds(ans, partyNum, own);
    for i := 1 to n + 1
      invariant j == Passed(partyNum, i - 1) == |encKeys|
      invariant decomVec == Front(ans, partyNum, own, i - 1)
      invariant |pointVec| == |decomVec| && forall l :: 0 <= l < |decomVec| ==> decomVec[l].Opening? && pointVec[l] == decomVec[l].y
      invariant forall l :: 0 <= l < j ==> ans[l].Opening? && AesKey(C, ans[l].y, me.U()) == Some(encKeys[l])
    {
      FrontNext(ans, partyNum, own, i - 1);
      if i == partyNum {
        pointVec := pointVec + [own.y];
        decomVec := decomVec + [own];
      } else {
        if !ans[j].Opening? {
          return None;
        }
        pointVec := pointVec + [ans[j].y];
        decomVec := decomVec + [ans[j]];
        var key := EncKey(C, ans[j].y, me.U());
        if key.None? {
          return None;
        }
        encKeys := encKeys + [key.value];
        j := j + 1;
      }
    }
    assert encKeys == EncKeys(C, ans, me.U());
    assert pointVec == YsOf(decomVec);
    var ySum := FoldPoints(pointVec);
    if !OpensAll(decomVec, l1.bc1) {
      return None;
    }
    r := Some(Local2(l1, pointVec, encKeys, ySum, ShareVss(t, n, me.poly), SharesFor(C.q, n, me.poly)));
  }

  /** The fold that adds up the points, from the first one on. */
  method FoldPoints(pointVec: seq<Point>) returns (sum: Point)
    requires |pointVec| > 0
    ensures sum == SumPoints(pointVec)
  {
    sum := pointVec[0];
    SumOfFirst(pointVec);
    for i := 1 to |pointVec|
      invariant sum == SumPoints(pointVec[..i])
    {
      SumOfNext(pointVec, i);
      sum := Plus(sum, pointVec[i]);
    }
    assert pointVec[..|pointVec|] == pointVec;
  }

  lemma SumOfFirst(ps: seq<Point>)
    requires |ps| > 0
    ensures SumPoints(ps[..1]) == ps[0]
  {
    assert Sum(Logs(ps[..1])) == Sum(Logs(ps[..1])[..0]) + ps[0].e;
  }

  lemma SumOfNext(ps: seq<Point>, i: nat)
    requires i < |ps|
    ensures SumPoints(ps[..i + 1]) == Plus(SumPoints(ps[..i]), ps[i])
  {
    assert Logs(ps[..i + 1])[..i] == Logs(ps[..i]);
  }

  /** Encrypts the share of slot k for the party i == k + 1, under the j-th key. */
  method SealAll(n: nat, partyNum: nat, l2: Local2) returns (msgs: seq<Msg>)
    requires 1 <= partyNum <= n && |l2.shares| == n && |l2.encKeys| == n - 1
    requires forall i :: 0 <= i < n ==> l2.shares[i] >= 0
    ensures msgs == SealedShares(partyNum - 1, l2)
  {
    hide ToBytes;
    msgs := [];
    var j := 0;
    for k := 0 to n
      invariant j == Passed(partyNum, k) == |msgs|
      invariant forall l :: 0 <= l < j ==> msgs[l] == Sealed(Aead(l2.encKeys[l], ToBytes(l2.shares[Skip(partyNum - 1, l)])))
    {
      var i := k + 1;
      if i != partyNum {
        assert Skip(partyNum - 1, j) == k;
        msgs := msgs + [Sealed(Aead(l2.encKeys[j], ToBytes(l2.shares[k])))];
        j := j + 1;
      }
    }
  }

  method AfterRound3(q: int, n: nat, partyNum: nat, l2: Local2, ans: seq<Msg>) returns (r: Option<Local3>)
    requires q > 0 && 1 <= partyNum <= n && |ans| == n - 1 && |l2.shares| == n
    ensures r == Next3(q, n, partyNum - 1, l2, ans)
  {
    hide FromBytes, Front, Rebuild, Decrypt;
    var own := l2.shares[partyNum - 1];
    ghost var plains: seq<int> := [];
    var partyShares: seq<int> := [];
    var j := 0;
    FrontEnds(plains, partyNum, own);
    for i := 1 to n + 1
      invariant j == Passed(partyNum, i - 1) == |plains|
      invariant forall l :: 0 <= l < j ==>
        (ShareOpens(l2, ans, l) && plains[l] == FromBytes(Decrypt(l2.encKeys[l], ans[l].aead).value) % q)
      invariant partyShares == Front(plains, partyNum, own, i - 1)
    {
      if i == partyNum {
        FrontNext(plains, partyNum, own, i - 1);
        partyShares := partyShares + [own];
      } else {
        if !ShareOpens(l2, ans, j) {
          return None;
        }
        var share := FromBytes(Decrypt(l2.encKeys[j], ans[j].aead).value) % q;
        plains := plains + [share];
        FrontNext(plains, partyNum, own, i - 1);
        FrontPrefix(plains, partyNum, own, i - 1);
        partyShares := partyShares + [share];
        j := j + 1;
      }
    }
    assert plains == OpenedShares(q, l2, ans);
    FrontEnds(plains, partyNum, own);
    r := Some(Local3(l2, partyShares));
  }

  method AfterRound4(q: int, n: nat, partyNum: nat, l3: Local3, ans: seq<Msg>) returns (r: Option<Local4>)
    requires q > 0 && 1 <= partyNum <= n && |ans| == n - 1
    ensures r == Next4(q, n, partyNum - 1, l3, ans)
  {
    hide Front, Rebuild, AllSharesFit, Sum;
    ghost var heard: seq<Vss> := [];
    var vssVec: seq<Vss> := [];
    var j := 0;
    FrontEnds(heard, partyNum, l3.l2.vss);
    for i := 1 to n + 1
      invariant j == Passed(partyNum, i - 1) == |heard|
      invariant forall l :: 0 <= l < j ==> ans[l].Sharing? && heard[l] == ans[l].vss
      invariant vssVec == Front(heard, partyNum, l3.l2.vss, i - 1)
    {
      if i == partyNum {
        FrontNext(heard, partyNum, l3.l2.vss, i - 1);
        vssVec := vssVec + [l3.l2.vss];
      } else {
        if !ans[j].Sharing? {
          return None;
        }
        heard := heard + [ans[j].vss];
        FrontNext(heard, partyNum, l3.l2.vss, i - 1);
        FrontPrefix(heard, partyNum, l3.l2.vss, i - 1);
        vssVec := vssVec + [ans[j].vss];
        j := j + 1;
      }
    }
    assert heard == SharingsOf(ans);
    FrontEnds(heard, partyNum, l3.l2.vss);
    if !AllSharesFit(q, partyNum - 1, l3, vssVec) {
      return None;
    }
    r := Some(Local4(l3, vssVec, Sum(l3.partyShares)));
  }

  method AfterRound5(q: int, n: nat, me: Part, partyNum: nat, l4: Local4, ans: seq<Msg>) returns (r: Option<KeyFile>)
    requires q > 0 && 1 <= partyNum <= n && |ans| == n - 1
    ensures r == Next5(q, n, me, partyNum - 1, l4, ans)
  {
    hide Front, Rebuild, ProofsVerify, KeysOf;
    var own := Proof(ProveDLog(l4.x));
    var dlogProofVec: seq<Msg> := [];
    var j := 0;
    FrontEnds(ans, partyNum, own);
    for i := 1 to n + 1
      invariant j == Passed(partyNum, i - 1)
      invariant dlogProofVec == Front(ans, partyNum, own, i - 1)
    {
      FrontNext(ans, partyNum, own, i - 1);
      if i == partyNum {
        dlogProofVec := dlogProofVec + [own];
      } else {
        dlogProofVec := dlogProofVec + [ans[j]];
        j := j + 1;
      }
    }
    if !ProofsVerify(q, dlogProofVec) {
      return None;
    }
    r := Some(KeyFile(me.U(), Base(me.U()), me.key, l4.x, partyNum, l4.vssVec, KeysOf(l4.l3.l2.l1.bc1), l4.l3.l2.ySum));
  }
}
