/**
 * The nearest-vector lookup (pages/api/getNearestVectors.ts): the request
 * handler's type checks and status codes, and the aggregation pipeline that
 * gives every stored record a distance to the input vector, sorts by it in
 * ascending order and keeps at most `limit` records.
 *
 * Distances are kept squared: `$sqrt` is monotone, so the order of records
 * is the same. The pipeline's treatment of missing and null operands follows
 * MongoDB: `$arrayElemAt` past the end is missing, `$subtract` and `$add`
 * with a null or missing operand give null, `$add` evaluates no operand
 * after its first null one (so once the running sum is null no later
 * element is read), and null sorts before every number. Every other element
 * of the input vector that is read is taken as a literal that is not a
 * number, which fails the aggregation; MongoDB instead evaluates a string
 * starting with `$` and an operator object as expressions, which the model
 * does not.
 */
module NearestVectors {
  import opened Wrappers
  import OpenAi

  /** A JSON value of the request body; `Undefined` stands for a missing field. */
  datatype Value =
    | Undefined
    | Null
    | Boolean(b: bool)
    | Number(n: int)
    | Str(s: string)
    | Array(items: seq<Value>)
    | Object

  /** The `distance` field the pipeline adds, squared: null, or a sum of squares. */
  datatype Distance = NullDistance | Squared(sum: nat)

  /** The ascending order of `$sort`: null first, then numbers by value. */
  predicate DistanceLe(a: Distance, b: Distance)
    ensures a.NullDistance? ==> DistanceLe(a, b)
    ensures b.NullDistance? ==> (DistanceLe(a, b) <==> a.NullDistance?)
    ensures a.Squared? && b.Squared? ==> (DistanceLe(a, b) <==> a.sum <= b.sum)
  {
    match a
    case NullDistance => true
    case Squared(x) => b.Squared? && x <= b.sum
  }

  /** The order of `$sort` is a total preorder in which null comes first. */
  lemma DistanceLeTotal(a: Distance, b: Distance, c: Distance)
    ensures DistanceLe(a, b) || DistanceLe(b, a)
    ensures DistanceLe(a, b) && DistanceLe(b, c) ==> DistanceLe(a, c)
    ensures a.NullDistance? ==> DistanceLe(a, b)
    ensures b.NullDistance? && DistanceLe(a, b) ==> a.NullDistance?
  {
  }

  /** Why the aggregation fails. */
  datatype PipelineError = NonNumericOperand | InvalidLimit

  /** `{ $arrayElemAt: [input, i] }`: the element, or missing past the end. */
  function ElementAt(input: seq<Value>, i: nat): (v: Value)
    ensures i < |input| ==> v == input[i]
    ensures i >= |input| ==> v == Undefined
  {
    if i < |input| then input[i] else Undefined
  }

  function Square(x: int): nat
  {
    x * x
  }

  /**
   * `{ $pow: [{ $subtract: [stored, element] }, 2] }`: the square of the
   * difference, null when the element is null or missing, a failure when it
   * is any other literal that is not a number.
   */
  function SquaredDifference(stored: int, element: Value): (r: Result<Option<nat>, PipelineError>)
    ensures element.Number? <==> r.Success? && r.value.Some?
    ensures element.Number? ==> r.value.value == Square(stored - element.n)
    ensures element.Null? || element.Undefined? <==> r == Success(None)
    ensures r.Failure? ==> r.error == NonNumericOperand
  {
    match element
    case Number(n) => Success(Some(Square(stored - n)))
    case Null => Success(None)
    case Undefined => Success(None)
    case _ => Failure(NonNumericOperand)
  }

  /** `{ $add: [acc, term] }`: null as soon as either operand is null. */
  function AddTerm(acc: Distance, term: Option<nat>): (d: Distance)
    ensures d.Squared? <==> acc.Squared? && term.Some?
    ensures d.Squared? ==> d.sum == acc.sum + term.value && d.sum >= acc.sum
  {
    if acc.NullDistance? || term.None? then NullDistance else Squared(acc.sum + term.value)
  }

  /**
   * The `$reduce` over indices `0 .. k - 1` of the stored vector, from initial
   * value 0. Each step is `$add` with the running sum `$$value` first, and
   * `$add` gives null at its first null operand without evaluating the rest:
   * once the sum is null, later elements are never read. So the reduce fails
   * exactly when its first element that is not a number is neither null nor
   * missing, and the sum is a number exactly when every element it reads is
   * a number.
   */
  function ReduceTo(stored: seq<int>, input: seq<Value>, k: nat): (r: Result<Distance, PipelineError>)
    requires k <= |stored|
    ensures r.Failure? <==> exists i :: 0 <= i < k && SquaredDifference(stored[i], ElementAt(input, i)).Failure?
                                        && (forall j :: 0 <= j < i ==> ElementAt(input, j).Number?)
    ensures r.Success? && r.value.Squared? <==> forall i :: 0 <= i < k ==> ElementAt(input, i).Number?
  {
    if k == 0 then Success(Squared(0))
    else
      match ReduceTo(stored, input, k - 1)
      case Failure(e) => Failure(e)
      case Success(NullDistance) => Success(NullDistance)
      case Success(acc) =>
        match SquaredDifference(stored[k - 1], ElementAt(input, k - 1))
        case Failure(e) => Failure(e)
        case Success(term) => Success(AddTerm(acc, term))
  }

  /**
   * The (squared) distance of a stored vector: the reduce over all of its own
   * indices. A numeric distance needs an input at least as long as the stored
   * vector whose elements up to that length are all numbers.
   */
  function DistanceOf(stored: seq<int>, input: seq<Value>): (r: Result<Distance, PipelineError>)
    ensures r.Success? && r.value.Squared? ==>
      |stored| <= |input| && forall i :: 0 <= i < |stored| ==> input[i].Number?
  {
    var r := ReduceTo(stored, input, |stored|);
    assert r.Success? && r.value.Squared? ==> forall i :: 0 <= i < |stored| ==> i < |input| && input[i].Number? by {
      if r.Success? && r.value.Squared? {
        forall i | 0 <= i < |stored|
          ensures i < |input| && input[i].Number?
        {
          assert ElementAt(input, i).Number?;
        }
      }
    }
    r
  }

  /** A numeric input vector as the request carries it. */
  function Numbers(b: seq<int>): (vs: seq<Value>)
    ensures |vs| == |b| && forall i :: 0 <= i < |b| ==> vs[i] == Number(b[i])
  {
    seq(|b|, i requires 0 <= i < |b| => Number(b[i]))
  }

  /** Reference definition: the squared Euclidean distance over the indices of `a`. */
  function SquaredDistance(a: seq<int>, b: seq<int>): nat
    requires |a| <= |b|
  {
    if a == [] then 0
    else SquaredDistance(a[..|a| - 1], b) + Square(a[|a| - 1] - b[|a| - 1])
  }

  lemma {:induction false} ReduceNumeric(stored: seq<int>, b: seq<int>, k: nat)
    requires k <= |stored| <= |b|
    ensures ReduceTo(stored, Numbers(b), k) == Success(Squared(SquaredDistance(stored[..k], b)))
  {
    if k > 0 {
      ReduceNumeric(stored, b, k - 1);
      assert stored[..k][..k - 1] == stored[..k - 1];
    }
  }

  /**
   * With a numeric input at least as long as the stored vector, the distance
   * is the sum over the stored vector's indices of the squared differences.
   */
  lemma NumericDistance(stored: seq<int>, b: seq<int>)
    requires |stored| <= |b|
    ensures DistanceOf(stored, Numbers(b)) == Success(Squared(SquaredDistance(stored, b)))
  {
    ReduceNumeric(stored, b, |stored|);
    assert stored[..|stored|] == stored;
  }

  lemma {:induction false} ReduceNullSticks(stored: seq<int>, b: seq<int>, k: nat)
    requires |b| < k <= |stored|
    ensures ReduceTo(stored, Numbers(b), k) == Success(NullDistance)
  {
    if k - 1 > |b| {
      ReduceNullSticks(stored, b, k - 1);
    } else {
      ReduceOk(stored, b, k - 1);
    }
  }

  lemma {:induction false} ReduceOk(stored: seq<int>, b: seq<int>, k: nat)
    requires k <= |stored| && k <= |b|
    ensures ReduceTo(stored, Numbers(b), k).Success?
  {
    if k > 0 {
      ReduceOk(stored, b, k - 1);
    }
  }

  /**
   * A numeric input shorter than the stored vector makes the distance null
   * (the missing elements turn the sum into null), so such a record sorts
   * before every record with a numeric distance.
   */
  lemma ShortInputGivesNullDistance(stored: seq<int>, b: seq<int>)
    requires |b| < |stored|
    ensures DistanceOf(stored, Numbers(b)) == Success(NullDistance)
    ensures forall d: Distance :: DistanceLe(NullDistance, d)
  {
    ReduceNullSticks(stored, b, |stored|);
  }

  /**
   * A null or missing element read while the sum is still a number makes
   * the distance null, whatever the elements after it are: the reduce reads
   * no further.
   */
  lemma {:induction false} NullElementEndsReading(stored: seq<int>, input: seq<Value>, i: nat)
    requires i < |stored|
    requires ElementAt(input, i).Null? || ElementAt(input, i).Undefined?
    requires forall j :: 0 <= j < i ==> ElementAt(input, j).Number?
    ensures DistanceOf(stored, input) == Success(NullDistance)
  {
    assert !ElementAt(input, i).Number?;
  }

  /**
   * The request `{inputVector: [null, "x"], limit: 1}` against one stored
   * vector `[1, 2]`: the first element makes the sum null, so the string is
   * never read and the record comes back with a null distance.
   */
  lemma NullBeforeTextIsNotAnError(doc: OpenAi.EmbeddingData)
    requires doc.vector == [1, 2]
    ensures var req := NearestRequest(Str("uri"), Str("db"), Array([Null, Str("x")]), Number(1));
      Handle(req, c => Some([doc])) == Response(200, Records([Ranked(doc, NullDistance)]))
  {
    NullElementEndsReading(doc.vector, [Null, Str("x")], 0);
    var ranked := AddDistances([doc], [Null, Str("x")]);
    assert ranked.Success? && |ranked.value| == 1 && ranked.value[0] == Ranked(doc, NullDistance);
    assert ranked.value == [Ranked(doc, NullDistance)];
  }

  /** The squared distance is zero exactly when the input starts with the stored vector. */
  lemma {:induction false} ZeroDistanceIffMatch(a: seq<int>, b: seq<int>)
    requires |a| <= |b|
    ensures SquaredDistance(a, b) == 0 <==> a == b[..|a|]
  {
    if a != [] {
      var n := |a| - 1;
      ZeroDistanceIffMatch(a[..n], b);
      if a == b[..|a|] {
        assert a[..n] == b[..n];
      } else if a[..n] == b[..n] {
        assert a == a[..n] + [a[n]];
        assert b[..|a|] == b[..n] + [b[n]];
      }
    }
  }

  /**
   * A record whose vector equals the input vector has distance zero, which
   * no other numeric distance undercuts.
   */
  lemma ExactMatchIsClosest(v: seq<int>)
    ensures DistanceOf(v, Numbers(v)) == Success(Squared(0))
    ensures forall d: Distance :: d.Squared? ==> DistanceLe(Squared(0), d)
  {
    NumericDistance(v, v);
    ZeroDistanceIffMatch(v, v);
    assert v[..|v|] == v;
  }

  /** A stored record with the `distance` field the pipeline added to it. */
  datatype Ranked = Ranked(doc: OpenAi.EmbeddingData, distance: Distance)

  /** `$addFields`: every record with its distance, or the failure of any of them. */
  function AddDistances(docs: seq<OpenAi.EmbeddingData>, input: seq<Value>): (r: Result<seq<Ranked>, PipelineError>)
    ensures r.Success? <==> forall i :: 0 <= i < |docs| ==> DistanceOf(docs[i].vector, input).Success?
    ensures r.Success? ==> |r.value| == |docs|
    ensures r.Success? ==>
      forall i :: 0 <= i < |docs| ==> r.value[i] == Ranked(docs[i], DistanceOf(docs[i].vector, input).value)
  {
    if docs == [] then Success([])
    else
      match DistanceOf(docs[0].vector, input)
      case Failure(e) => Failure(e)
      case Success(d) =>
        match AddDistances(docs[1..], input)
        case Failure(e) =>
          assert forall i :: 1 <= i < |docs| ==> docs[1..][i - 1] == docs[i];
          Failure(e)
        case Success(rest) =>
          assert forall i :: 1 <= i < |docs| ==> docs[1..][i - 1] == docs[i];
          Success([Ranked(docs[0], d)] + rest)
  }

  predicate SortedByDistance(rs: seq<Ranked>)
  {
    forall i, j :: 0 <= i < j < |rs| ==> DistanceLe(rs[i].distance, rs[j].distance)
  }

  /** Inserts `r` before the first record it does not exceed. */
  function Insert(r: Ranked, rs: seq<Ranked>): (out: seq<Ranked>)
    requires SortedByDistance(rs)
    ensures SortedByDistance(out)
    ensures |out| == |rs| + 1
    ensures multiset(out) == multiset(rs) + multiset{r}
  {
    if rs == [] then [r]
    else if DistanceLe(r.distance, rs[0].distance) then [r] + rs
    else
      var tail := Insert(r, rs[1..]);
      assert rs == [rs[0]] + rs[1..];
      assert forall k :: 0 <= k < |tail| ==> DistanceLe(rs[0].distance, tail[k].distance) by {
        forall k | 0 <= k < |tail|
          ensures DistanceLe(rs[0].distance, tail[k].distance)
        {
          assert tail[k] in multiset(tail);
          if tail[k] != r {
            assert tail[k] in multiset(rs[1..]);
            var m :| 0 <= m < |rs[1..]| && rs[1..][m] == tail[k];
            assert rs[m + 1] == tail[k];
          }
        }
      }
      [rs[0]] + tail
  }

  /** `$sort: { distance: 1 }`, realised as a stable insertion sort. */
  function SortByDistance(rs: seq<Ranked>): (out: seq<Ranked>)
    ensures SortedByDistance(out)
    ensures |out| == |rs|
    ensures multiset(out) == multiset(rs)
  {
    if rs == [] then []
    else
      assert rs == [rs[0]] + rs[1..];
      Insert(rs[0], SortByDistance(rs[1..]))
  }

  function Min(a: int, b: int): int
  {
    if a <= b then a else b
  }

  /**
   * getNearestVectors: the stored records with their distances, in
   * ascending order of distance, at most `limit` of them. `$limit` refuses a
   * limit that is not positive, and a non-numeric element the pipeline
   * reads fails the aggregation.
   */
  function GetNearestVectors(docs: seq<OpenAi.EmbeddingData>, input: seq<Value>, limit: int): (r: Result<seq<Ranked>, PipelineError>)
    ensures r.Failure? <==> limit <= 0 || AddDistances(docs, input).Failure?
  {
    if limit <= 0 then Failure(InvalidLimit)
    else
      match AddDistances(docs, input)
      case Failure(e) => Failure(e)
      case Success(ranked) =>
        var sorted := SortByDistance(ranked);
        Success(sorted[..Min(limit, |sorted|)])
  }

  /** A prefix of a sorted sequence is no greater than anything left behind. */
  lemma PrefixBeforeRest(sorted: seq<Ranked>, k: nat)
    requires SortedByDistance(sorted) && k <= |sorted|
    ensures forall x, y :: x in sorted[..k] && y in multiset(sorted) - multiset(sorted[..k]) ==>
      DistanceLe(x.distance, y.distance)
  {
    assert sorted == sorted[..k] + sorted[k..];
    forall x, y | x in sorted[..k] && y in multiset(sorted) - multiset(sorted[..k])
      ensures DistanceLe(x.distance, y.distance)
    {
      var i :| 0 <= i < k && sorted[..k][i] == x;
      assert y in multiset(sorted[k..]);
      var j :| 0 <= j < |sorted[k..]| && sorted[k..][j] == y;
      assert sorted[i] == x && sorted[k + j] == y;
    }
  }

  /**
   * What a successful lookup returns: min(limit, number of records) records,
   * in non-decreasing order of distance; each is a stored record unchanged,
   * carrying its own distance; none is returned more often than stored; and
   * every record left out is at least as far as every record returned.
   */
  lemma NearestVectorsSpec(docs: seq<OpenAi.EmbeddingData>, input: seq<Value>, limit: int)
    requires GetNearestVectors(docs, input, limit).Success?
    ensures var r := GetNearestVectors(docs, input, limit).value;
      var ranked := AddDistances(docs, input).value;
      && |r| == Min(limit, |docs|)
      && SortedByDistance(r)
      && (forall x :: x in r ==> x.doc in docs && DistanceOf(x.doc.vector, input) == Success(x.distance))
      && multiset(r) <= multiset(ranked)
      && (forall x, y :: x in r && y in multiset(ranked) - multiset(r) ==> DistanceLe(x.distance, y.distance))
  {
    var ranked := AddDistances(docs, input).value;
    var r := GetNearestVectors(docs, input, limit).value;
    assert r == SortByDistance(ranked)[..Min(limit, |ranked|)];
    TakeSorted(ranked, Min(limit, |ranked|));
    forall x | x in r
      ensures x.doc in docs && DistanceOf(x.doc.vector, input) == Success(x.distance)
    {
      assert x in multiset(ranked);
      var i :| 0 <= i < |ranked| && ranked[i] == x;
    }
  }

  /**
   * The first `k` records of the sorted list: `k` of them, in order, drawn
   * from the input, and no farther than any input record left behind.
   */
  lemma TakeSorted(ranked: seq<Ranked>, k: nat)
    requires k <= |ranked|
    ensures var r := SortByDistance(ranked)[..k];
      && |r| == k
      && SortedByDistance(r)
      && multiset(r) <= multiset(ranked)
      && (forall x, y :: x in r && y in multiset(ranked) - multiset(r) ==> DistanceLe(x.distance, y.distance))
  {
    var sorted := SortByDistance(ranked);
    assert sorted == sorted[..k] + sorted[k..];
    assert multiset(sorted) == multiset(sorted[..k]) + multiset(sorted[k..]);
    PrefixBeforeRest(sorted, k);
  }

  /** The body of a POST to /api/getNearestVectors. */
  datatype NearestRequest = NearestRequest(mongoUri: Value, mongoDbName: Value, inputVector: Value, limit: Value)

  datatype MongoConfig = MongoConfig(uri: string, dbName: string)

  datatype ResponseBody = ErrorMessage(error: string) | Records(records: seq<Ranked>)
  datatype Response = Response(status: int, body: ResponseBody)

  const INVALID_REQUEST := "Invalid mongoUri, mongoDbName, inputVector or limit."
  const LOOKUP_FAILED := "An error occurred while fetching the nearest vectors."

  /** The handler's type test on the request body. */
  predicate WellTyped(req: NearestRequest)
  {
    req.mongoUri.Str? && req.mongoDbName.Str? && req.inputVector.Array? && req.limit.Number?
  }

  /**
   * The handler: 400 unless the body is well typed; otherwise 200 with the
   * ranked records, or 500 when the database could not be reached (the
   * `vectors` collection is None) or the aggregation failed.
   */
  function Handle(req: NearestRequest, vectors: MongoConfig -> Option<seq<OpenAi.EmbeddingData>>): (res: Response)
    ensures !WellTyped(req) <==> res.status == 400
    ensures res.status == 400 ==> res.body == ErrorMessage(INVALID_REQUEST)
    ensures WellTyped(req) && vectors(MongoConfig(req.mongoUri.s, req.mongoDbName.s)).None? ==>
      res == Response(500, ErrorMessage(LOOKUP_FAILED))
    ensures WellTyped(req) && vectors(MongoConfig(req.mongoUri.s, req.mongoDbName.s)).Some? ==>
      var docs := vectors(MongoConfig(req.mongoUri.s, req.mongoDbName.s)).value;
      match GetNearestVectors(docs, req.inputVector.items, req.limit.n)
      case Success(records) => res == Response(200, Records(records))
      case Failure(_) => res == Response(500, ErrorMessage(LOOKUP_FAILED))
  {
    if !WellTyped(req) then Response(400, ErrorMessage(INVALID_REQUEST))
    else
      var config := MongoConfig(req.mongoUri.s, req.mongoDbName.s);
      match vectors(config)
      case None => Response(500, ErrorMessage(LOOKUP_FAILED))
      case Some(docs) =>
        match GetNearestVectors(docs, req.inputVector.items, req.limit.n)
        case Failure(_) => Response(500, ErrorMessage(LOOKUP_FAILED))
        case Success(records) => Response(200, Records(records))
  }
}
