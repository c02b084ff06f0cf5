/** The FAISS vector store (`FAISSVectorStore` in
    backend/app/services/vector_store.py). The FAISS flat inner-product
    index is a sequence of stored vectors searched by brute-force ranking;
    the disk is a map from path to snapshot; the L2 norm numpy computes is a
    parameter of the store. */
module VectorStore {
  import opened PyStrings

  type Vector = seq<real>

  /** A metadata value: the stored dictionaries hold ints, strings and the
      float similarity score. */
  datatype Value = IntVal(i: int) | StrVal(s: string) | RealVal(r: real)

  type Meta = map<string, Value>

  // ---------------------------------------------------------------------
  // normalize_vectors
  // ---------------------------------------------------------------------

  /** The inner product, over the common prefix of `a` and `b`. */
  function Dot(a: Vector, b: Vector): real {
    if a == [] || b == [] then 0.0 else a[0] * b[0] + Dot(a[1..], b[1..])
  }

  function SumOfSquares(v: Vector): real {
    Dot(v, v)
  }

  function Scale(v: Vector, c: real): (r: Vector)
    ensures |r| == |v|
  {
    seq(|v|, i requires 0 <= i < |v| => v[i] * c)
  }

  /** One row of `normalize_vectors`: divided by its norm, or left as it is
      when the norm is zero. */
  function Normalize(norm: Vector -> real, v: Vector): (r: Vector)
    ensures |r| == |v|
    ensures norm(v) == 0.0 ==> r == v
    ensures norm(v) != 0.0 ==> forall i :: 0 <= i < |v| ==> r[i] * norm(v) == v[i]
  {
    var n := norm(v);
    if n == 0.0 then v else seq(|v|, i requires 0 <= i < |v| => v[i] / n)
  }

  /** `normalize_vectors` on a batch: row by row. */
  function NormalizeRows(norm: Vector -> real, vectors: seq<Vector>): (r: seq<Vector>)
    ensures |r| == |vectors|
    ensures forall i :: 0 <= i < |vectors| ==> r[i] == Normalize(norm, vectors[i])
  {
    seq(|vectors|, i requires 0 <= i < |vectors| => Normalize(norm, vectors[i]))
  }

  lemma {:induction false} SumOfSquaresScale(v: Vector, c: real)
    ensures SumOfSquares(Scale(v, c)) == c * c * SumOfSquares(v)
  {
    if v != [] {
      var w := Scale(v, c);
      assert forall i :: 0 <= i < |v| - 1 ==> w[1..][i] == Scale(v[1..], c)[i];
      assert w[1..] == Scale(v[1..], c);
      SumOfSquaresScale(v[1..], c);
      assert w[0] * w[0] == c * c * (v[0] * v[0]);
    }
  }

  /** With the true L2 norm, a row of non-zero norm normalises to a unit
      vector. */
  lemma {:induction false} NormalizeUnit(norm: Vector -> real, v: Vector)
    requires norm(v) != 0.0 && norm(v) * norm(v) == SumOfSquares(v)
    ensures SumOfSquares(Normalize(norm, v)) == 1.0
  {
    var n := norm(v);
    var u := Normalize(norm, v);
    var s := Scale(v, 1.0 / n);
    forall i | 0 <= i < |v|
      ensures u[i] == s[i]
    {
      assert u[i] == v[i] / n;
      assert s[i] == v[i] * (1.0 / n);
    }
    assert u == s;
    SumOfSquaresScale(v, 1.0 / n);
    assert (1.0 / n) * (1.0 / n) * (n * n) == 1.0;
  }

  /** With the true L2 norm, normalising twice is normalising once. */
  lemma {:induction false} NormalizeIdempotent(norm: Vector -> real, v: Vector)
    requires forall w :: norm(w) >= 0.0 && norm(w) * norm(w) == SumOfSquares(w)
    ensures Normalize(norm, Normalize(norm, v)) == Normalize(norm, v)
  {
    var u := Normalize(norm, v);
    if norm(v) != 0.0 {
      NormalizeUnit(norm, v);
      UnitRoot(norm(u));
    }
  }

  lemma {:induction false} SquareAboveOne(a: real)
    requires a > 1.0
    ensures a * a > 1.0
  {
    assert a * a > a * 1.0;
  }

  lemma {:induction false} SquareBelowOne(a: real)
    requires 0.0 <= a < 1.0
    ensures a * a < 1.0
  {
    assert a * a <= a * 1.0;
  }

  /** A norm whose square is 1 is 1. */
  lemma {:induction false} UnitRoot(m: real)
    requires m >= 0.0 && m * m == 1.0
    ensures m == 1.0
  {
    if m > 1.0 {
      SquareAboveOne(m);
    } else if m < 1.0 {
      SquareBelowOne(m);
    }
  }

  // ---------------------------------------------------------------------
  // The flat inner-product index: ranking by score.
  // ---------------------------------------------------------------------

  /** Every index is a valid position of `scores`. */
  predicate InRange(scores: seq<real>, xs: seq<nat>) {
    forall a :: 0 <= a < |xs| ==> xs[a] < |scores|
  }

  /** Best score first. */
  predicate Descending(scores: seq<real>, xs: seq<nat>)
    requires InRange(scores, xs)
  {
    forall a, b :: 0 <= a < b < |xs| ==> scores[xs[a]] >= scores[xs[b]]
  }

  /** Inserts index `i` after every index that scores at least as well. */
  function Insert(scores: seq<real>, i: nat, xs: seq<nat>): (r: seq<nat>)
    requires i < |scores| && InRange(scores, xs)
    ensures |r| == |xs| + 1 && InRange(scores, r)
    ensures multiset(r) == multiset(xs) + multiset{i}
  {
    if xs == [] then [i]
    else if scores[i] > scores[xs[0]] then [i] + xs
    else
      assert xs == [xs[0]] + xs[1..];
      [xs[0]] + Insert(scores, i, xs[1..])
  }

  lemma {:induction false} InsertDescending(scores: seq<real>, i: nat, xs: seq<nat>)
    requires i < |scores| && InRange(scores, xs) && Descending(scores, xs)
    ensures Descending(scores, Insert(scores, i, xs))
  {
    if xs != [] && scores[i] <= scores[xs[0]] {
      InsertDescending(scores, i, xs[1..]);
      var r := Insert(scores, i, xs);
      var rest := Insert(scores, i, xs[1..]);
      assert r == [xs[0]] + rest;
      forall b | 0 < b < |r|
        ensures scores[r[0]] >= scores[r[b]]
      {
        assert r[b] in multiset(rest);
        assert r[b] in multiset(xs[1..]) + multiset{i};
        if r[b] != i {
          var c :| 0 <= c < |xs[1..]| && xs[1..][c] == r[b];
          assert xs[c + 1] == r[b];
        }
      }
    }
  }

  /** The first `n` positions, ranked. */
  function RankFirst(scores: seq<real>, n: nat): (r: seq<nat>)
    requires n <= |scores|
    ensures |r| == n && InRange(scores, r)
  {
    if n == 0 then [] else Insert(scores, n - 1, RankFirst(scores, n - 1))
  }

  /** All positions of `scores`, best score first; equal scores keep the
      lower position first. */
  function Ranking(scores: seq<real>): (r: seq<nat>)
    ensures |r| == |scores| && InRange(scores, r)
  {
    RankFirst(scores, |scores|)
  }

  lemma {:induction false} RankFirstDescending(scores: seq<real>, n: nat)
    requires n <= |scores|
    ensures Descending(scores, RankFirst(scores, n))
  {
    if n > 0 {
      RankFirstDescending(scores, n - 1);
      InsertDescending(scores, n - 1, RankFirst(scores, n - 1));
    }
  }

  lemma {:induction false} RankFirstPermutes(scores: seq<real>, n: nat)
    requires n <= |scores|
    ensures multiset(RankFirst(scores, n)) == multiset(Range(0, n))
  {
    if n > 0 {
      RankFirstPermutes(scores, n - 1);
      assert Range(0, n) == Range(0, n - 1) + [n - 1];
    }
  }

  /** Positions with equal scores appear in increasing order. */
  predicate TiesInOrder(scores: seq<real>, xs: seq<nat>)
    requires InRange(scores, xs)
  {
    forall a, b :: 0 <= a < b < |xs| && scores[xs[a]] == scores[xs[b]] ==> xs[a] < xs[b]
  }

  /** What a ranked list says of its order also holds of its tail. */
  lemma {:induction false} TailRanked(scores: seq<real>, xs: seq<nat>)
    requires xs != [] && InRange(scores, xs) && Descending(scores, xs) && TiesInOrder(scores, xs)
    ensures InRange(scores, xs[1..]) && Descending(scores, xs[1..]) && TiesInOrder(scores, xs[1..])
  {
    var tail := xs[1..];
    forall a, b | 0 <= a < b < |tail|
      ensures tail[a] == xs[a + 1] && tail[b] == xs[b + 1]
    {
    }
  }

  /** A strictly better index put in front keeps ties in order. */
  lemma {:induction false} FrontTiesInOrder(scores: seq<real>, i: nat, xs: seq<nat>)
    requires i < |scores| && InRange(scores, xs) && Descending(scores, xs) && TiesInOrder(scores, xs)
    requires xs != [] && scores[i] > scores[xs[0]]
    ensures InRange(scores, [i] + xs) && TiesInOrder(scores, [i] + xs)
  {
    var r := [i] + xs;
    forall b | 0 < b < |r|
      ensures scores[r[b]] < scores[i]
    {
      assert r[b] == xs[b - 1];
      assert scores[xs[0]] >= scores[xs[b - 1]];
    }
    forall a, b | 0 < a < b < |r| && scores[r[a]] == scores[r[b]]
      ensures r[a] < r[b]
    {
      assert r[a] == xs[a - 1] && r[b] == xs[b - 1];
    }
  }

  /** Keeping the head in front of a tail into which `i` was inserted keeps
      ties in order, since the head precedes its tail's equals and `i`. */
  lemma {:induction false} HeadTiesInOrder(scores: seq<real>, i: nat, xs: seq<nat>, rest: seq<nat>)
    requires xs != [] && InRange(scores, xs) && TiesInOrder(scores, xs) && xs[0] < i
    requires InRange(scores, rest) && TiesInOrder(scores, rest)
    requires multiset(rest) == multiset(xs[1..]) + multiset{i}
    ensures InRange(scores, [xs[0]] + rest) && TiesInOrder(scores, [xs[0]] + rest)
  {
    var r := [xs[0]] + rest;
    forall b | 0 < b < |r| && scores[r[0]] == scores[r[b]] && r[b] != i
      ensures r[0] < r[b]
    {
      assert r[b] == rest[b - 1];
      assert rest[b - 1] in multiset(rest);
      var c :| 1 <= c < |xs| && xs[c] == r[b];
    }
    forall a, b | 0 < a < b < |r| && scores[r[a]] == scores[r[b]]
      ensures r[a] < r[b]
    {
      assert r[a] == rest[a - 1] && r[b] == rest[b - 1];
    }
  }

  lemma {:induction false} InsertTiesInOrder(scores: seq<real>, i: nat, xs: seq<nat>)
    requires i < |scores| && InRange(scores, xs) && Descending(scores, xs) && TiesInOrder(scores, xs)
    requires forall y :: y in xs ==> y < i
    ensures TiesInOrder(scores, Insert(scores, i, xs))
  {
    if xs != [] && scores[i] > scores[xs[0]] {
      FrontTiesInOrder(scores, i, xs);
      assert Insert(scores, i, xs) == [i] + xs;
    } else if xs != [] {
      var tail := xs[1..];
      TailRanked(scores, xs);
      assert xs[0] in xs;
      assert forall y :: y in tail ==> y in xs;
      InsertTiesInOrder(scores, i, tail);
      HeadTiesInOrder(scores, i, xs, Insert(scores, i, tail));
      assert Insert(scores, i, xs) == [xs[0]] + Insert(scores, i, tail);
    }
  }

  /** One step of `RankFirst` keeps ties in order. */
  lemma {:induction false} RankStepTiesInOrder(scores: seq<real>, m: nat)
    requires m < |scores|
    requires Descending(scores, RankFirst(scores, m)) && TiesInOrder(scores, RankFirst(scores, m))
    requires forall y :: y in RankFirst(scores, m) ==> y < m
    ensures TiesInOrder(scores, RankFirst(scores, m + 1))
  {
    InsertTiesInOrder(scores, m, RankFirst(scores, m));
  }

  lemma {:induction false} RankFirstTiesInOrder(scores: seq<real>, n: nat)
    requires n <= |scores|
    ensures TiesInOrder(scores, RankFirst(scores, n))
  {
    if n > 0 {
      RankFirstTiesInOrder(scores, n - 1);
      RankFirstDescending(scores, n - 1);
      RankFirstBelow(scores, n - 1);
      RankStepTiesInOrder(scores, n - 1);
    }
  }

  /** The ranking is a permutation of the positions, in descending score
      order, with equal scores in increasing position order. */
  lemma {:induction false} RankingSorted(scores: seq<real>)
    ensures Descending(scores, Ranking(scores))
    ensures multiset(Ranking(scores)) == multiset(Range(0, |scores|))
    ensures TiesInOrder(scores, Ranking(scores))
  {
    RankFirstDescending(scores, |scores|);
    RankFirstPermutes(scores, |scores|);
    RankFirstTiesInOrder(scores, |scores|);
  }

  function Min(a: int, b: int): int {
    if a <= b then a else b
  }

  predicate Distinct(xs: seq<nat>) {
    forall a, b :: 0 <= a < b < |xs| ==> xs[a] != xs[b]
  }

  lemma {:induction false} InsertDistinct(scores: seq<real>, i: nat, xs: seq<nat>)
    requires i < |scores| && InRange(scores, xs) && Distinct(xs) && i !in xs
    ensures Distinct(Insert(scores, i, xs))
  {
    if xs != [] && scores[i] <= scores[xs[0]] {
      InsertDistinct(scores, i, xs[1..]);
      var rest := Insert(scores, i, xs[1..]);
      assert Insert(scores, i, xs) == [xs[0]] + rest;
      assert xs[0] !in multiset(xs[1..]) + multiset{i};
      assert xs[0] !in multiset(rest);
    }
  }

  lemma {:induction false} RankFirstBelow(scores: seq<real>, n: nat)
    requires n <= |scores|
    ensures forall y :: y in RankFirst(scores, n) ==> y < n
  {
    if n > 0 {
      var prev := RankFirst(scores, n - 1);
      RankFirstBelow(scores, n - 1);
      var r := RankFirst(scores, n);
      assert r == Insert(scores, n - 1, prev);
      forall y | y in r
        ensures y < n
      {
        assert y in multiset(r);
      }
    }
  }

  lemma {:induction false} RankFirstDistinct(scores: seq<real>, n: nat)
    requires n <= |scores|
    ensures Distinct(RankFirst(scores, n))
  {
    if n > 0 {
      var prev := RankFirst(scores, n - 1);
      assert Distinct(prev) by { RankFirstDistinct(scores, n - 1); }
      assert n - 1 !in prev by { RankFirstBelow(scores, n - 1); }
      InsertDistinct(scores, n - 1, prev);
    }
  }

  /** The positions a FAISS flat-index search returns for scores `scores`:
      the best `k`, or all of them when fewer are stored. */
  function TopK(scores: seq<real>, k: nat): (r: seq<nat>)
    ensures |r| == Min(k, |scores|) && InRange(scores, r)
  {
    Ranking(scores)[..Min(k, |scores|)]
  }

  /** Where a stored position sits in the ranking. */
  lemma {:induction false} RankOf(scores: seq<real>, x: nat) returns (p: nat)
    requires x < |scores|
    ensures p < |scores| && Ranking(scores)[p] == x
  {
    RankingSorted(scores);
    assert Range(0, |scores|)[x] == x;
    assert x in multiset(Ranking(scores));
    p :| 0 <= p < |scores| && Ranking(scores)[p] == x;
  }

  lemma {:induction false} TopKSorted(scores: seq<real>, k: nat)
    ensures Distinct(TopK(scores, k)) && Descending(scores, TopK(scores, k))
  {
    RankingSorted(scores);
    RankFirstDistinct(scores, |scores|);
  }

  /** The top `k` are distinct, best first, and every stored position left
      out scores no better than the last one returned (so a position is
      left out only when `k` results were returned). */
  lemma {:induction false} TopKIsBest(scores: seq<real>, k: nat)
    ensures var r := TopK(scores, k);
      && Distinct(r) && Descending(scores, r)
      && forall x :: 0 <= x < |scores| && x !in r ==>
        |r| == k && (k > 0 ==> scores[x] <= scores[r[k - 1]])
  {
    var r := TopK(scores, k);
    TopKSorted(scores, k);
    forall x | 0 <= x < |scores| && x !in r
      ensures |r| == k && (k > 0 ==> scores[x] <= scores[r[k - 1]])
    {
      var p := RankOf(scores, x);
      assert p >= |r|;
      RankingSorted(scores);
    }
  }

  // ---------------------------------------------------------------------
  // The store's state, its files, and its errors.
  // ---------------------------------------------------------------------

  /** A FAISS `IndexFlatIP`: its dimension and the vectors added so far
      (`ntotal` is their number). */
  datatype FlatIndex = FlatIndex(dimension: nat, vectors: seq<Vector>)

  /** A file on disk: a FAISS index written by `faiss.write_index`, the
      pickled metadata, or anything else (which fails to load). */
  datatype Snapshot =
    | IndexFile(index: FlatIndex)
    | MetadataFile(metadata: seq<Meta>, nextId: int)
    | Unreadable

  /** The persistent part of a store. */
  datatype Stored = Stored(index: FlatIndex, metadata: seq<Meta>, nextId: int)

  /** The exceptions the store's operations raise. */
  datatype StoreError =
    | NoIndex                                  // `self.index` is None
    | DimensionMismatch(expected: nat, found: nat)
    | NonPositiveK
    | MetadataMissing(position: nat)           // `self.metadata[idx]` out of range
    | NoDirectory                              // `os.makedirs('')`
    | WriteFailed(path: string)

  /** The file system: files by path, and the paths a write to fails. */
  class Disk {
    var files: map<string, Snapshot>
    const unwritable: set<string>

    constructor(files: map<string, Snapshot>, unwritable: set<string>)
      ensures this.files == files && this.unwritable == unwritable
    {
      this.files := files;
      this.unwritable := unwritable;
    }
  }

  function MetadataPathOf(indexPath: string): (r: string)
    ensures |r| > |indexPath| && r[..|indexPath|] == indexPath
  {
    indexPath + "_metadata.pkl"
  }

  function Fresh(dimension: nat): Stored {
    Stored(FlatIndex(dimension, []), [], 0)
  }

  /** What `load_index` reads, when the index file and the metadata file
      are both present and readable. */
  function Loaded(files: map<string, Snapshot>, indexPath: string, metadataPath: string): Option<Stored> {
    if indexPath in files && files[indexPath].IndexFile?
      && metadataPath in files && files[metadataPath].MetadataFile?
    then Some(Stored(files[indexPath].index, files[metadataPath].metadata, files[metadataPath].nextId))
    else None
  }

  /** The state `load_or_create_index` ends in: what was saved, or a fresh
      empty index when anything is missing or fails to load. */
  function Opened(dimension: nat, files: map<string, Snapshot>, indexPath: string, metadataPath: string): Stored {
    match Loaded(files, indexPath, metadataPath)
    case Some(s) => s
    case None => Fresh(dimension)
  }

  /** How `save_index` of an existing index ends: `os.makedirs` raises
      when the index path has no directory part, then each write raises
      when its path is unwritable. */
  function SaveFault(indexPath: string, metadataPath: string, unwritable: set<string>): (r: Outcome<StoreError>)
    ensures r == Pass <==> '/' in indexPath && indexPath !in unwritable && metadataPath !in unwritable
  {
    if '/' !in indexPath then Fail(NoDirectory)
    else if indexPath in unwritable then Fail(WriteFailed(indexPath))
    else if metadataPath in unwritable then Fail(WriteFailed(metadataPath))
    else Pass
  }

  /** The files after a successful `save_index` of `s`. */
  function Written(files: map<string, Snapshot>, indexPath: string, metadataPath: string, s: Stored): map<string, Snapshot> {
    files[indexPath := IndexFile(s.index)][metadataPath := MetadataFile(s.metadata, s.nextId)]
  }

  /** Saving then loading restores the index, the metadata and `next_id`,
      whatever else is on disk. */
  lemma {:induction false} SaveLoadRoundTrip(dimension: nat, files: map<string, Snapshot>, indexPath: string, s: Stored)
    ensures var metadataPath := MetadataPathOf(indexPath);
      Loaded(Written(files, indexPath, metadataPath, s), indexPath, metadataPath) == Some(s)
      && Opened(dimension, Written(files, indexPath, metadataPath, s), indexPath, metadataPath) == s
  {
    assert MetadataPathOf(indexPath) != indexPath;
  }

  /** Loading never fails: a missing or unreadable file gives a fresh
      empty index. */
  lemma {:induction false} LoadFallsBack(dimension: nat, files: map<string, Snapshot>, indexPath: string, metadataPath: string)
    ensures indexPath !in files || metadataPath !in files ==>
      Opened(dimension, files, indexPath, metadataPath) == Fresh(dimension)
    ensures indexPath in files && files[indexPath] == Unreadable ==>
      Opened(dimension, files, indexPath, metadataPath) == Fresh(dimension)
    ensures metadataPath in files && files[metadataPath] == Unreadable ==>
      Opened(dimension, files, indexPath, metadataPath) == Fresh(dimension)
  {
  }

  /** The position of the first row whose length is not `d`, or the
      number of rows when every row has length `d`. */
  function FirstMisfit(vectors: seq<Vector>, d: nat): (i: nat)
    ensures i <= |vectors|
    ensures forall j :: 0 <= j < i ==> |vectors[j]| == d
    ensures i < |vectors| ==> |vectors[i]| != d
  {
    if vectors == [] then 0
    else if |vectors[0]| != d then 0
    else 1 + FirstMisfit(vectors[1..], d)
  }

  /** The metadata of one `add_vectors` batch, tagged with consecutive
      vector ids from `first`. */
  function Tagged(batch: seq<Meta>, first: int): (r: seq<Meta>)
    ensures |r| == |batch|
    ensures forall j :: 0 <= j < |batch| ==>
      && r[j].Keys == batch[j].Keys + {"vector_id"}
      && r[j]["vector_id"] == IntVal(first + j)
      && forall key :: key in batch[j] && key != "vector_id" ==> r[j][key] == batch[j][key]
  {
    seq(|batch|, j requires 0 <= j < |batch| => batch[j]["vector_id" := IntVal(first + j)])
  }

  /** Two batches added one after the other are tagged as one batch: ids
      continue across calls. */
  lemma {:induction false} TaggedAppend(a: seq<Meta>, b: seq<Meta>, first: int)
    ensures Tagged(a, first) + Tagged(b, first + |a|) == Tagged(a + b, first)
  {
    var lhs := Tagged(a, first) + Tagged(b, first + |a|);
    var rhs := Tagged(a + b, first);
    forall j | 0 <= j < |a| + |b|
      ensures lhs[j] == rhs[j]
    {
      if j >= |a| {
        assert (a + b)[j] == b[j - |a|];
      }
    }
  }

  /** The inner products of the query with the stored vectors. */
  function Scores(query: Vector, vectors: seq<Vector>): (r: seq<real>)
    ensures |r| == |vectors|
  {
    seq(|vectors|, i requires 0 <= i < |vectors| => Dot(query, vectors[i]))
  }

  /** A copy of stored metadata with the similarity score added. */
  function WithScore(meta: Meta, score: real): Meta {
    meta["similarity_score" := RealVal(score)]
  }

  /** The results for ranked positions `top`, or the first position with no
      metadata. */
  function Collect(metadata: seq<Meta>, scores: seq<real>, top: seq<nat>): Result<seq<Meta>, StoreError>
    requires InRange(scores, top)
  {
    if top == [] then Ok([])
    else
      var last := top[|top| - 1];
      match Collect(metadata, scores, top[..|top| - 1])
      case Err(e) => Err(e)
      case Ok(rs) =>
        if last < |metadata| then Ok(rs + [WithScore(metadata[last], scores[last])])
        else Err(MetadataMissing(last))
  }

  lemma {:induction false} CollectShape(metadata: seq<Meta>, scores: seq<real>, top: seq<nat>)
    requires InRange(scores, top)
    ensures Collect(metadata, scores, top).Ok? <==> forall a :: 0 <= a < |top| ==> top[a] < |metadata|
    ensures Collect(metadata, scores, top).Ok? ==>
      var rs := Collect(metadata, scores, top).value;
      && |rs| == |top|
      && forall a :: 0 <= a < |top| ==> rs[a] == WithScore(metadata[top[a]], scores[top[a]])
  {
    if top != [] {
      CollectShape(metadata, scores, top[..|top| - 1]);
    }
  }

  lemma {:induction false} CollectErrExtends(metadata: seq<Meta>, scores: seq<real>, top: seq<nat>, n: nat)
    requires InRange(scores, top) && n <= |top|
    requires Collect(metadata, scores, top[..n]).Err?
    ensures Collect(metadata, scores, top) == Collect(metadata, scores, top[..n])
    decreases |top| - n
  {
    if n < |top| {
      assert top[..n + 1][..n] == top[..n];
      CollectErrExtends(metadata, scores, top, n + 1);
    } else {
      assert top[..n] == top;
    }
  }

  /** What `search(query_vector, k)` returns on a store in this state. */
  function SearchOf(index: Option<FlatIndex>, metadata: seq<Meta>, norm: Vector -> real, query: Vector, k: int): Result<seq<Meta>, StoreError> {
    if index.None? then Err(NoIndex)
    else if |query| != index.value.dimension then Err(DimensionMismatch(index.value.dimension, |query|))
    else if k < 1 then Err(NonPositiveK)
    else
      var scores := Scores(Normalize(norm, query), index.value.vectors);
      Collect(metadata, scores, TopK(scores, k))
  }

  /** A successful search returns `min(k, ntotal)` copies of stored metadata
      with their scores, for distinct stored vectors, best score first, and
      no stored vector left out scores better than the last one returned.
      It fails exactly when there is no index, the query has the wrong
      dimension, `k` is not positive, or a returned position has no
      metadata. */
  lemma {:induction false} SearchFacts(ix: FlatIndex, metadata: seq<Meta>, norm: Vector -> real, query: Vector, k: int)
    requires |query| == ix.dimension && k >= 1
    ensures var scores := Scores(Normalize(norm, query), ix.vectors);
      var top := TopK(scores, k);
      var r := SearchOf(Some(ix), metadata, norm, query, k);
      && (r.Ok? <==> forall a :: 0 <= a < |top| ==> top[a] < |metadata|)
      && (r.Ok? ==>
        && |r.value| == Min(k, |ix.vectors|) <= k
        && Distinct(top) && Descending(scores, top)
        && (forall a :: 0 <= a < |top| ==> r.value[a] == WithScore(metadata[top[a]], scores[top[a]]))
        && (forall x :: 0 <= x < |scores| && x !in top ==> |top| == k && scores[x] <= scores[top[k - 1]]))
  {
    var scores := Scores(Normalize(norm, query), ix.vectors);
    CollectShape(metadata, scores, TopK(scores, k));
    TopKIsBest(scores, k);
  }

  // ---------------------------------------------------------------------
  // FAISSVectorStore
  // ---------------------------------------------------------------------

  class FAISSVectorStore {
    const dimension: nat
    const indexPath: string
    const metadataPath: string
    /** The L2 norm numpy computes for one row. */
    const norm: Vector -> real

    var index: Option<FlatIndex>
    var metadata: seq<Meta>
    var nextId: int

    /** `__init__`: no index yet. */
    constructor(dimension: nat, indexPath: string, norm: Vector -> real)
      ensures this.dimension == dimension && this.indexPath == indexPath && this.norm == norm
      ensures metadataPath == MetadataPathOf(indexPath)
      ensures index == None && metadata == [] && nextId == 0
    {
      this.dimension := dimension;
      this.indexPath := indexPath;
      this.metadataPath := MetadataPathOf(indexPath);
      this.norm := norm;
      index := None;
      metadata := [];
      nextId := 0;
    }

    /** `get_total_vectors`: the number of stored vectors, 0 with no index. */
    function TotalVectors(): (n: nat)
      reads this
      ensures index.None? ==> n == 0
      ensures index.Some? ==> n == |index.value.vectors|
    {
      match index
      case None => 0
      case Some(ix) => |ix.vectors|
    }

    /** The persistent state, once an index exists. */
    function Current(): Stored
      reads this
      requires index.Some?
    {
      Stored(index.value, metadata, nextId)
    }

    /** `_create_index`. */
    method CreateIndex()
      modifies this
      ensures index.Some? && Current() == Fresh(dimension)
      ensures TotalVectors() == 0
    {
      index := Some(FlatIndex(dimension, []));
      metadata := [];
      nextId := 0;
    }

    /** `load_index`: any failure falls back to `_create_index`. */
    method LoadIndex(disk: Disk)
      modifies this
      ensures index.Some? && Current() == Opened(dimension, disk.files, indexPath, metadataPath)
    {
      if indexPath !in disk.files || !disk.files[indexPath].IndexFile? {
        CreateIndex();
        return;
      }
      index := Some(disk.files[indexPath].index);
      if metadataPath !in disk.files || !disk.files[metadataPath].MetadataFile? {
        CreateIndex();
        return;
      }
      var data := disk.files[metadataPath];
      metadata := data.metadata;
      nextId := data.nextId;
    }

    /** `load_or_create_index`. */
    method LoadOrCreateIndex(disk: Disk)
      modifies this
      ensures index.Some? && Current() == Opened(dimension, disk.files, indexPath, metadataPath)
    {
      if indexPath in disk.files && metadataPath in disk.files {
        LoadIndex(disk);
      } else {
        CreateIndex();
      }
    }

    /** The state `add_vectors` starts from: the current one, or the one
        its lazy `load_or_create_index` opens. */
    function Start(disk: Disk): Stored
      reads this, disk
    {
      if index.Some? then Current() else Opened(dimension, disk.files, indexPath, metadataPath)
    }

    /** `add_vectors`: the index grows by the normalised rows, then each
        metadata entry is tagged with the next id and appended. FAISS
        rejects rows of the wrong dimension before any metadata changes. */
    method AddVectors(disk: Disk, vectors: seq<Vector>, batch: seq<Meta>) returns (outcome: Outcome<StoreError>)
      modifies this
      ensures var start := old(Start(disk));
        && index.Some?
        && (outcome == Pass <==> forall i :: 0 <= i < |vectors| ==> |vectors[i]| == start.index.dimension)
        && (outcome.Fail? ==> Current() == start)
        && (outcome.Fail? ==>
          var i := FirstMisfit(vectors, start.index.dimension);
          i < |vectors| && outcome == Fail(DimensionMismatch(start.index.dimension, |vectors[i]|)))
        && (outcome == Pass ==>
          && TotalVectors() == |start.index.vectors| + |vectors|
          && index.value == start.index.(vectors := start.index.vectors + NormalizeRows(norm, vectors))
          && metadata == start.metadata + Tagged(batch, start.nextId)
          && nextId == start.nextId + |batch|)
    {
      if index.None? {
        LoadOrCreateIndex(disk);
      }
      var ix := index.value;
      ghost var start := Current();
      var normalized := NormalizeRows(norm, vectors);
      for i := 0 to |vectors|
        invariant index.Some? && Current() == start
        invariant forall j :: 0 <= j < i ==> |vectors[j]| == ix.dimension
      {
        if |vectors[i]| != ix.dimension {
          return Fail(DimensionMismatch(ix.dimension, |vectors[i]|));
        }
      }
      index := Some(ix.(vectors := ix.vectors + normalized));
      ghost var first := nextId;
      ghost var before := metadata;
      for i := 0 to |batch|
        invariant index == Some(ix.(vectors := ix.vectors + normalized))
        invariant nextId == first + i
        invariant metadata == before + Tagged(batch[..i], first)
      {
        var meta := batch[i]["vector_id" := IntVal(nextId)];
        nextId := nextId + 1;
        metadata := metadata + [meta];
        assert Tagged(batch[..i + 1], first) == Tagged(batch[..i], first) + [meta];
      }
      assert batch[..|batch|] == batch;
      outcome := Pass;
    }

    /** `search`: the stored metadata of the best `k` matches, with scores;
        nothing in the store changes. */
    method Search(query: Vector, k: int) returns (r: Result<seq<Meta>, StoreError>)
      ensures r == SearchOf(index, metadata, norm, query, k)
    {
      if index.None? {
        return Err(NoIndex);
      }
      var ix := index.value;
      if |query| != ix.dimension {
        return Err(DimensionMismatch(ix.dimension, |query|));
      }
      if k < 1 {
        return Err(NonPositiveK);
      }
      var scores := Scores(Normalize(norm, query), ix.vectors);
      var top := TopK(scores, k);
      assert |top| <= k;
      // FAISS pads its k result slots with -1 after the stored vectors run out.
      var padding: seq<int> := seq(k - |top|, _ => -1);
      var labels: seq<int> := top + padding;
      var results: seq<Meta> := [];
      for j := 0 to k
        invariant Collect(metadata, scores, top[..Min(j, |top|)]) == Ok(results)
      {
        var idx := labels[j];
        if idx != -1 {
          assert j < |top| && idx == top[j];
          assert top[..j + 1][..j] == top[..j];
          if idx >= |metadata| {
            CollectErrExtends(metadata, scores, top, j + 1);
            return Err(MetadataMissing(idx));
          }
          results := results + [WithScore(metadata[idx], scores[idx])];
        }
      }
      assert top[..|top|] == top;
      r := Ok(results);
    }

    /** `save_index`: a no-op without an index; otherwise the index file,
        then the metadata file. A failing write raises and leaves the files
        written so far. */
    method SaveIndex(disk: Disk) returns (outcome: Outcome<StoreError>)
      modifies disk
      ensures index.None? ==> outcome == Pass && disk.files == old(disk.files)
      ensures index.Some? && outcome == Pass ==>
        disk.files == Written(old(disk.files), indexPath, metadataPath, Current())
      ensures index.Some? && outcome == Pass <==>
        index.Some? && '/' in indexPath && indexPath !in disk.unwritable && metadataPath !in disk.unwritable
      ensures index.Some? ==> outcome == SaveFault(indexPath, metadataPath, disk.unwritable)
      ensures outcome.Fail? && ('/' !in indexPath || indexPath in disk.unwritable) ==> disk.files == old(disk.files)
      ensures outcome.Fail? && '/' in indexPath && indexPath !in disk.unwritable ==>
        disk.files == old(disk.files)[indexPath := IndexFile(index.value)]
    {
      if index.None? {
        return Pass;
      }
      // os.makedirs(os.path.dirname(index_path)) raises when the path has
      // no directory part.
      if '/' !in indexPath {
        return Fail(NoDirectory);
      }
      if indexPath in disk.unwritable {
        return Fail(WriteFailed(indexPath));
      }
      disk.files := disk.files[indexPath := IndexFile(index.value)];
      if metadataPath in disk.unwritable {
        return Fail(WriteFailed(metadataPath));
      }
      disk.files := disk.files[metadataPath := MetadataFile(metadata, nextId)];
      outcome := Pass;
    }
  }

  /** A store saved to disk and opened again on the same path by a new
      store holds what the first one held. */
  method SaveThenReopen(store: FAISSVectorStore, disk: Disk) returns (reopened: FAISSVectorStore, outcome: Outcome<StoreError>)
    requires store.index.Some? && store.metadataPath == MetadataPathOf(store.indexPath)
    modifies disk
    ensures outcome == Pass ==> reopened.index.Some? && reopened.Current() == store.Current()
  {
    outcome := store.SaveIndex(disk);
    reopened := new FAISSVectorStore(store.dimension, store.indexPath, store.norm);
    reopened.LoadOrCreateIndex(disk);
    if outcome == Pass {
      SaveLoadRoundTrip(store.dimension, old(disk.files), store.indexPath, store.Current());
    }
  }
}
