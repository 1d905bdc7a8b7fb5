/** `uniqBy(items, 'id')`: removing items whose id was already seen, keeping
    the first item of every id and the order of the input. */
module UniqBy {
  import opened MentionItems

  function Ids(xs: seq<SourceItem>): set<string>
  {
    set x | x in xs :: x.id
  }

  /** The first item of `xs` with the given id, if any. */
  function FirstWithId(xs: seq<SourceItem>, id: string): Option<SourceItem>
  {
    if xs == [] then None
    else if xs[0].id == id then Some(xs[0])
    else FirstWithId(xs[1..], id)
  }

  predicate DistinctIds(xs: seq<SourceItem>)
  {
    forall i, j :: 0 <= i < j < |xs| ==> xs[i].id != xs[j].id
  }

  /** `r` is `xs` with some elements left out and the rest in their order. */
  predicate IsSubsequence(r: seq<SourceItem>, xs: seq<SourceItem>)
    decreases |xs|
  {
    if r == [] then true
    else if xs == [] then false
    else (r[0] == xs[0] && IsSubsequence(r[1..], xs[1..])) || IsSubsequence(r, xs[1..])
  }

  lemma {:induction false} SubsequenceOfTail(r: seq<SourceItem>, xs: seq<SourceItem>)
    requires xs != [] && IsSubsequence(r, xs[1..])
    ensures IsSubsequence(r, xs)
  {
  }

  lemma {:induction false} SubsequenceMembers(r: seq<SourceItem>, xs: seq<SourceItem>, x: SourceItem)
    requires IsSubsequence(r, xs) && x in r
    ensures x in xs
    decreases |xs|
  {
    if r[0] == xs[0] && IsSubsequence(r[1..], xs[1..]) {
      if x != r[0] {
        assert x in r[1..];
        SubsequenceMembers(r[1..], xs[1..], x);
      }
    } else {
      SubsequenceMembers(r, xs[1..], x);
    }
  }

  /** Every element of a subsequence is an element of the sequence. */
  lemma SubsequenceElements(r: seq<SourceItem>, xs: seq<SourceItem>)
    requires IsSubsequence(r, xs)
    ensures forall x :: x in r ==> x in xs
  {
    forall x | x in r ensures x in xs {
      SubsequenceMembers(r, xs, x);
    }
  }

  lemma IdsOfCons(x: SourceItem, xs: seq<SourceItem>)
    ensures Ids([x] + xs) == {x.id} + Ids(xs)
  {
  }

  /** The scan of `uniqBy`, with the set of ids already seen. */
  function UniqByIdFrom(xs: seq<SourceItem>, seen: set<string>): seq<SourceItem>
    decreases |xs|
  {
    if xs == [] then []
    else if xs[0].id in seen then UniqByIdFrom(xs[1..], seen)
    else [xs[0]] + UniqByIdFrom(xs[1..], seen + {xs[0].id})
  }

  lemma {:induction false} UniqSubsequence(xs: seq<SourceItem>, seen: set<string>)
    ensures IsSubsequence(UniqByIdFrom(xs, seen), xs)
    decreases |xs|
  {
    if xs != [] {
      if xs[0].id in seen {
        UniqSubsequence(xs[1..], seen);
        SubsequenceOfTail(UniqByIdFrom(xs[1..], seen), xs);
      } else {
        var rest := UniqByIdFrom(xs[1..], seen + {xs[0].id});
        UniqSubsequence(xs[1..], seen + {xs[0].id});
        assert ([xs[0]] + rest)[1..] == rest;
      }
    }
  }

  lemma {:induction false} UniqIds(xs: seq<SourceItem>, seen: set<string>)
    ensures Ids(UniqByIdFrom(xs, seen)) == Ids(xs) - seen
    decreases |xs|
  {
    if xs != [] {
      assert xs == [xs[0]] + xs[1..];
      IdsOfCons(xs[0], xs[1..]);
      if xs[0].id in seen {
        UniqIds(xs[1..], seen);
      } else {
        UniqIds(xs[1..], seen + {xs[0].id});
        IdsOfCons(xs[0], UniqByIdFrom(xs[1..], seen + {xs[0].id}));
      }
    }
  }

  lemma {:induction false} UniqDistinct(xs: seq<SourceItem>, seen: set<string>)
    ensures DistinctIds(UniqByIdFrom(xs, seen))
    decreases |xs|
  {
    if xs != [] {
      if xs[0].id in seen {
        UniqDistinct(xs[1..], seen);
      } else {
        var seen' := seen + {xs[0].id};
        var rest := UniqByIdFrom(xs[1..], seen');
        UniqDistinct(xs[1..], seen');
        UniqIds(xs[1..], seen');
        var r := [xs[0]] + rest;
        forall i, j | 0 <= i < j < |r| ensures r[i].id != r[j].id {
          assert r[j] == rest[j - 1] && r[j].id in Ids(rest);
          if i > 0 { assert r[i] == rest[i - 1]; }
        }
      }
    }
  }

  lemma {:induction false} UniqKeepsFirst(xs: seq<SourceItem>, seen: set<string>)
    ensures var r := UniqByIdFrom(xs, seen);
      forall k :: 0 <= k < |r| ==> FirstWithId(xs, r[k].id) == Some(r[k])
    decreases |xs|
  {
    if xs != [] {
      var seen' := if xs[0].id in seen then seen else seen + {xs[0].id};
      var rest := UniqByIdFrom(xs[1..], seen');
      UniqKeepsFirst(xs[1..], seen');
      UniqIds(xs[1..], seen');
      var r := UniqByIdFrom(xs, seen);
      forall k | 0 <= k < |r| ensures FirstWithId(xs, r[k].id) == Some(r[k]) {
        if xs[0].id in seen {
          assert r[k] == rest[k] && rest[k].id in Ids(rest);
        } else if k > 0 {
          assert r[k] == rest[k - 1] && rest[k - 1].id in Ids(rest);
        }
      }
    }
  }

  /** `uniqBy(xs, 'id')`: one item per id, each the first of its id in `xs`,
      in the order of `xs`. */
  function UniqById(xs: seq<SourceItem>): (r: seq<SourceItem>)
    ensures IsSubsequence(r, xs)
    ensures forall x :: x in r ==> x in xs
    ensures DistinctIds(r)
    ensures Ids(r) == Ids(xs)
    ensures forall k :: 0 <= k < |r| ==> FirstWithId(xs, r[k].id) == Some(r[k])
  {
    UniqSubsequence(xs, {});
    SubsequenceElements(UniqByIdFrom(xs, {}), xs);
    UniqIds(xs, {});
    UniqDistinct(xs, {});
    UniqKeepsFirst(xs, {});
    UniqByIdFrom(xs, {})
  }

  /** A list whose ids are already distinct is left as it is. */
  lemma {:induction false} UniqByIdFromDistinct(xs: seq<SourceItem>, seen: set<string>)
    requires DistinctIds(xs) && Ids(xs) !! seen
    ensures UniqByIdFrom(xs, seen) == xs
    decreases |xs|
  {
    if xs != [] {
      assert xs == [xs[0]] + xs[1..];
      IdsOfCons(xs[0], xs[1..]);
      assert xs[0].id !in seen;
      forall i, j | 0 <= i < j < |xs[1..]| ensures xs[1..][i].id != xs[1..][j].id {
        assert xs[1..][i] == xs[i + 1] && xs[1..][j] == xs[j + 1];
      }
      forall y | y in xs[1..] ensures y.id != xs[0].id {
        var j :| 0 <= j < |xs[1..]| && xs[1..][j] == y;
        assert xs[j + 1] == y;
      }
      UniqByIdFromDistinct(xs[1..], seen + {xs[0].id});
    }
  }

  /** Deduplicating twice is the same as deduplicating once. */
  lemma UniqByIdIdempotent(xs: seq<SourceItem>)
    ensures UniqById(UniqById(xs)) == UniqById(xs)
  {
    UniqByIdFromDistinct(UniqById(xs), {});
  }
}
