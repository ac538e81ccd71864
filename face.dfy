/**
 * Best-match selection of backend/app/face.py (`match_embedding`): a linear scan of the
 * identity cache that keeps a running minimum distance starting at 1.0 and replaces it
 * only on a strictly smaller distance.
 *
 * Decrypting a stored embedding and computing the cosine distance are one oracle,
 * `DistanceOracle`, which yields `None` where the source's `decrypt_embedding` or
 * `cosine_distance` raises. The float arithmetic itself is not modelled.
 */
module Face {
  import opened Wrappers

  /** A face descriptor as produced by the embedding model. */
  type Embedding = seq<real>

  /** A row of the persons table; `embedding` is the encrypted, base64-encoded descriptor. */
  datatype Person = Person(id: string, name: string, embedding: Option<string>)

  /** Decrypt the stored descriptor and measure its distance to the query; `None` if either step raises. */
  type DistanceOracle = (Embedding, string) -> Option<real>

  /** The pair `(best, best_d)` that `match_embedding` returns. */
  datatype MatchResult = MatchResult(best: Option<Person>, distance: real)

  /** The initial accumulator (`best = None`, `best_d = 1.0`), which is also the "no match" answer. */
  const NoMatch: MatchResult := MatchResult(None, 1.0)

  /**
   * The distance an entry contributes, or `None` when the scan skips it: the embedding
   * is missing or empty (`if not enc: continue`), or decrypting or measuring raised.
   */
  function EntryDistance(query: Embedding, p: Person, distance: DistanceOracle): Option<real> {
    if p.embedding.None? || p.embedding.value == "" then None
    else distance(query, p.embedding.value)
  }

  /** One iteration of the scan: replace the accumulator only on a strictly smaller distance. */
  function Step(acc: MatchResult, query: Embedding, p: Person, distance: DistanceOracle): MatchResult {
    match EntryDistance(query, p, distance)
    case None => acc
    case Some(d) => if d < acc.distance then MatchResult(Some(p), d) else acc
  }

  /** The accumulator after scanning `cache` from `acc`, in cache order. */
  function ScanFrom(acc: MatchResult, query: Embedding, cache: seq<Person>, distance: DistanceOracle): MatchResult
    decreases |cache|
  {
    if cache == [] then acc
    else Step(ScanFrom(acc, query, cache[..|cache| - 1], distance), query, cache[|cache| - 1], distance)
  }

  /** What `match_embedding(vec, persons_cache)` returns; a `None` query never looks at the cache. */
  function Match(vec: Option<Embedding>, cache: seq<Person>, distance: DistanceOracle): MatchResult {
    if vec.None? then NoMatch else ScanFrom(NoMatch, vec.value, cache, distance)
  }

  /**
   * Entry k is the one the scan must pick: it has distance d below the 1.0 sentinel,
   * every earlier usable entry is strictly farther, and no later entry is closer.
   */
  ghost predicate IsFirstMinimum(query: Embedding, cache: seq<Person>, distance: DistanceOracle, k: int, d: real) {
    && 0 <= k < |cache|
    && EntryDistance(query, cache[k], distance) == Some(d)
    && d < 1.0
    && (forall j :: 0 <= j < k && EntryDistance(query, cache[j], distance).Some? ==>
          EntryDistance(query, cache[j], distance).value > d)
    && (forall j :: k < j < |cache| && EntryDistance(query, cache[j], distance).Some? ==>
          EntryDistance(query, cache[j], distance).value >= d)
  }

  /** `match_embedding` as written: a `for` loop over the cache with `continue` on a skipped entry. */
  method MatchEmbedding(vec: Option<Embedding>, personsCache: seq<Person>, distance: DistanceOracle)
    returns (best: Option<Person>, bestD: real)
    ensures MatchResult(best, bestD) == Match(vec, personsCache, distance)
  {
    best := None;
    bestD := 1.0;
    if vec.None? {
      return;
    }
    for i := 0 to |personsCache|
      invariant MatchResult(best, bestD) == ScanFrom(NoMatch, vec.value, personsCache[..i], distance)
    {
      assert personsCache[..i + 1][..i] == personsCache[..i];
      var p := personsCache[i];
      var enc := p.embedding;
      if enc.None? || enc.value == "" {
        continue;
      }
      var d := distance(vec.value, enc.value);
      if d.Some? && d.value < bestD {
        bestD := d.value;
        best := Some(p);
      }
    }
    assert personsCache[..|personsCache|] == personsCache;
  }

  /** A `None` query returns `(None, 1.0)` whatever the cache holds. */
  lemma NoQueryNoMatch(cache: seq<Person>, distance: DistanceOracle)
    ensures Match(None, cache, distance) == NoMatch
  {
  }

  /** Scanning a concatenation is scanning the second part from where the first part left off. */
  lemma {:induction false} ScanAppend(acc: MatchResult, query: Embedding, a: seq<Person>, b: seq<Person>, distance: DistanceOracle)
    ensures ScanFrom(acc, query, a + b, distance) == ScanFrom(ScanFrom(acc, query, a, distance), query, b, distance)
    decreases |b|
  {
    if b == [] {
      assert a + b == a;
    } else {
      assert (a + b)[..|a + b| - 1] == a + b[..|b| - 1];
      ScanAppend(acc, query, a, b[..|b| - 1], distance);
    }
  }

  /** An entry the scan skips can be removed from (or inserted into) the cache without changing the result. */
  lemma SkippedEntryIrrelevant(query: Embedding, a: seq<Person>, p: Person, b: seq<Person>, distance: DistanceOracle)
    requires EntryDistance(query, p, distance).None?
    ensures Match(Some(query), a + [p] + b, distance) == Match(Some(query), a + b, distance)
  {
    ScanAppend(NoMatch, query, a + [p], b, distance);
    ScanAppend(NoMatch, query, a, [p], distance);
    ScanAppend(NoMatch, query, a, b, distance);
    assert [p][..0] == [];
  }

  /**
   * What the scan guarantees: the distance never exceeds 1.0 nor any usable entry's distance;
   * a best person exists exactly when the distance is below 1.0, and it is then the first
   * entry of minimal distance; with no best person the result is `(None, 1.0)`.
   */
  lemma {:induction false} MatchSound(query: Embedding, cache: seq<Person>, distance: DistanceOracle)
    ensures var r := Match(Some(query), cache, distance);
      && r.distance <= 1.0
      && (r.best.Some? <==> r.distance < 1.0)
      && (r.best.None? ==> r == NoMatch)
      && (forall j :: 0 <= j < |cache| && EntryDistance(query, cache[j], distance).Some? ==>
            r.distance <= EntryDistance(query, cache[j], distance).value)
      && (r.best.Some? ==> exists k :: IsFirstMinimum(query, cache, distance, k, r.distance) && cache[k] == r.best.value)
    decreases |cache|
  {
    if cache != [] {
      var n := |cache| - 1;
      var prefix := cache[..n];
      MatchSound(query, prefix, distance);
      var r0 := Match(Some(query), prefix, distance);
      var r := Match(Some(query), cache, distance);
      assert forall j :: 0 <= j < n ==> prefix[j] == cache[j];
      if r.best.Some? {
        if r != r0 {
          assert IsFirstMinimum(query, cache, distance, n, r.distance);
        } else {
          var k :| IsFirstMinimum(query, prefix, distance, k, r.distance) && prefix[k] == r.best.value;
          assert IsFirstMinimum(query, cache, distance, k, r.distance);
        }
      }
    }
  }

  /** The converse: the first entry of minimal distance below 1.0 is the one returned, at its distance. */
  lemma {:induction false} MatchComplete(query: Embedding, cache: seq<Person>, distance: DistanceOracle, k: int, d: real)
    requires IsFirstMinimum(query, cache, distance, k, d)
    ensures Match(Some(query), cache, distance) == MatchResult(Some(cache[k]), d)
    decreases |cache|
  {
    var n := |cache| - 1;
    var prefix := cache[..n];
    assert forall j :: 0 <= j < n ==> prefix[j] == cache[j];
    if k == n {
      MatchSound(query, prefix, distance);
      var r0 := Match(Some(query), prefix, distance);
      if r0.best.Some? {
        var k0 :| IsFirstMinimum(query, prefix, distance, k0, r0.distance) && prefix[k0] == r0.best.value;
        assert EntryDistance(query, cache[k0], distance) == Some(r0.distance);
      }
    } else {
      assert IsFirstMinimum(query, prefix, distance, k, d);
      MatchComplete(query, prefix, distance, k, d);
    }
  }

  /** No person is returned exactly when every usable entry is at distance 1.0 or more (an empty cache included). */
  lemma NoMatchIff(query: Embedding, cache: seq<Person>, distance: DistanceOracle)
    ensures Match(Some(query), cache, distance).best.None? <==>
      forall j :: 0 <= j < |cache| && EntryDistance(query, cache[j], distance).Some? ==>
        EntryDistance(query, cache[j], distance).value >= 1.0
  {
    MatchSound(query, cache, distance);
  }

  /**
   * Two usable entries at the same distance: the later one is not returned (unless the
   * same person also occurs earlier), because the scan replaces only on a strictly smaller distance.
   */
  lemma TieGoesToEarliest(query: Embedding, cache: seq<Person>, distance: DistanceOracle, i: int, j: int)
    requires 0 <= i < j < |cache|
    requires EntryDistance(query, cache[i], distance).Some?
    requires EntryDistance(query, cache[i], distance) == EntryDistance(query, cache[j], distance)
    requires cache[j] !in cache[..j]
    ensures Match(Some(query), cache, distance).best != Some(cache[j])
  {
    MatchSound(query, cache, distance);
  }

  /**
   * Two identities at distances 0.5 and 0.2 from the query: the second is returned at 0.2.
   * At 0.9 and 0.5 the second is returned at 0.5: any distance below the 1.0 sentinel is a
   * match here, and acceptance against a threshold is left to the camera worker.
   */
  lemma TwoIdentityExample(query: Embedding, distance: DistanceOracle, d1: real, d2: real)
    requires distance(query, "e1") == Some(d1) && distance(query, "e2") == Some(d2)
    requires (d1 == 0.5 && d2 == 0.2) || (d1 == 0.9 && d2 == 0.5)
    ensures Match(Some(query), [Person("p1", "one", Some("e1")), Person("p2", "two", Some("e2"))], distance)
      == MatchResult(Some(Person("p2", "two", Some("e2"))), d2)
  {
    var p1 := Person("p1", "one", Some("e1"));
    var p2 := Person("p2", "two", Some("e2"));
    assert "e1" != "" && "e2" != "";
    assert EntryDistance(query, p1, distance) == Some(d1);
    assert EntryDistance(query, p2, distance) == Some(d2);
    assert [p1][..0] == [];
    assert ScanFrom(NoMatch, query, [p1], distance) == MatchResult(Some(p1), d1);
    assert [p1, p2][..1] == [p1];
  }
}
