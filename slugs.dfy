/** games/migrations/0004_update_game_model_for_tde.py, `populate_slugs`: every
    game whose new `slug` column is still null gets the first of
    `base`, `base-1`, `base-2`, ... that no other game holds, where `base` is
    the slugified title. The game table is an array of slug cells, one per row. */
module SlugMigration {
  import opened Common

  /** The k-th candidate the loop tries: `base`, then `f"{base}-{counter}"`. */
  function Candidate(base: string, k: nat): string {
    if k == 0 then base else base + "-" + NatToString(k)
  }

  /** Distinct counters give distinct candidates. */
  lemma CandidateInjective(base: string, a: nat, b: nat)
    requires Candidate(base, a) == Candidate(base, b)
    ensures a == b
  {
    if a != 0 && b != 0 {
      var p := base + "-";
      assert Candidate(base, a)[|p|..] == NatToString(a);
      assert Candidate(base, b)[|p|..] == NatToString(b);
      NatToStringInjective(a, b);
    }
  }

  /** `Game.objects.filter(slug=c).exclude(id=<row i>).exists()`. */
  predicate Taken(slugs: seq<Option<string>>, i: nat, c: string) {
    exists j | 0 <= j < |slugs| :: j != i && slugs[j] == Some(c)
  }

  /** The slugs held by rows other than i: at most one per row. */
  function Others(slugs: seq<Option<string>>, i: nat): (r: set<string>)
    ensures |r| <= |slugs|
  {
    if slugs == [] then {}
    else
      var init, last := slugs[..|slugs| - 1], |slugs| - 1;
      var rest := Others(init, i);
      if last != i && slugs[last].Some? then rest + {slugs[last].value} else rest
  }

  /** A slug is among the others' exactly when the existence query finds it taken. */
  lemma {:induction false} OthersTaken(slugs: seq<Option<string>>, i: nat, c: string)
    ensures c in Others(slugs, i) <==> Taken(slugs, i, c)
  {
    if slugs != [] {
      var init, last := slugs[..|slugs| - 1], |slugs| - 1;
      OthersTaken(init, i, c);
      if Taken(init, i, c) {
        var j :| 0 <= j < |init| && j != i && init[j] == Some(c);
        assert slugs[j] == Some(c);
      }
      if Taken(slugs, i, c) {
        var j :| 0 <= j < |slugs| && j != i && slugs[j] == Some(c);
        if j < last {
          assert init[j] == Some(c);
        }
      }
    }
  }

  /** The first k candidates. */
  function Candidates(base: string, k: nat): set<string> {
    set j | 0 <= j < k :: Candidate(base, j)
  }

  lemma {:induction false} CandidatesSize(base: string, k: nat)
    ensures |Candidates(base, k)| == k
  {
    if k > 0 {
      CandidatesSize(base, k - 1);
      assert Candidates(base, k) == Candidates(base, k - 1) + {Candidate(base, k - 1)};
      if Candidate(base, k - 1) in Candidates(base, k - 1) {
        var j :| 0 <= j < k - 1 && Candidate(base, j) == Candidate(base, k - 1);
        CandidateInjective(base, j, k - 1);
      }
    }
  }

  lemma {:induction false} SubsetSize<T>(a: set<T>, b: set<T>)
    requires a <= b
    ensures |a| <= |b|
  {
    if a != {} {
      var x :| x in a;
      SubsetSize(a - {x}, b - {x});
    }
  }

  /** Pigeonhole: k taken candidates need k distinct slugs held by other rows. */
  lemma Pigeonhole(slugs: seq<Option<string>>, i: nat, base: string, k: nat)
    requires forall j :: 0 <= j < k ==> Taken(slugs, i, Candidate(base, j))
    ensures k <= |Others(slugs, i)|
  {
    CandidatesSize(base, k);
    forall c | c in Candidates(base, k) ensures c in Others(slugs, i) {
      OthersTaken(slugs, i, c);
    }
    SubsetSize(Candidates(base, k), Others(slugs, i));
  }

  /** The `while` loop of `populate_slugs` for row i: the counter k it stops at
      names the first candidate no other row holds, and with N rows it stops
      at k <= N (so `counter` never passes N + 1). */
  method FreeSlug(slugs: seq<Option<string>>, i: nat, base: string) returns (slug: string, k: nat)
    ensures slug == Candidate(base, k) && !Taken(slugs, i, slug)
    ensures forall j :: 0 <= j < k ==> Taken(slugs, i, Candidate(base, j))
    ensures k <= |slugs|
  {
    slug, k := base, 0;
    while Taken(slugs, i, slug)
      invariant slug == Candidate(base, k)
      invariant forall j :: 0 <= j < k ==> Taken(slugs, i, Candidate(base, j))
      invariant k <= |Others(slugs, i)|
      decreases |Others(slugs, i)| - k
    {
      ghost var taken := Candidate(base, k);
      assert Taken(slugs, i, taken);
      k := k + 1;
      assert forall j :: 0 <= j < k ==> Taken(slugs, i, Candidate(base, j)) by {
        forall j | 0 <= j < k ensures Taken(slugs, i, Candidate(base, j)) {
          if j == k - 1 {
            assert Candidate(base, j) == taken;
          }
        }
      }
      Pigeonhole(slugs, i, base, k);
      slug := Candidate(base, k);
    }
  }

  /** No two rows hold the same slug (the column is `unique=True`). */
  predicate DistinctSlugs(slugs: seq<Option<string>>) {
    forall a, b | 0 <= a < b < |slugs| :: slugs[a].Some? ==> slugs[a] != slugs[b]
  }

  /** Row i holds the first candidate of `base` that the other rows did not hold. */
  ghost predicate FirstFree(slugs: seq<Option<string>>, i: nat, base: string) {
    exists k: nat :: i < |slugs| && slugs[i] == Some(Candidate(base, k)) &&
      forall j :: 0 <= j < k ==> Taken(slugs, i, Candidate(base, j))
  }

  /** Filling a null cell keeps every slug other rows already saw as taken. */
  lemma FillKeepsFirstFree(slugs: seq<Option<string>>, i: nat, v: string, m: nat, base: string)
    requires i < |slugs| && slugs[i].None? && m != i && FirstFree(slugs, m, base)
    ensures FirstFree(slugs[i := Some(v)], m, base)
  {
    var k: nat :| m < |slugs| && slugs[m] == Some(Candidate(base, k)) &&
      forall j :: 0 <= j < k ==> Taken(slugs, m, Candidate(base, j));
    var t := slugs[i := Some(v)];
    forall j | 0 <= j < k ensures Taken(t, m, Candidate(base, j)) {
      var w :| 0 <= w < |slugs| && w != m && slugs[w] == Some(Candidate(base, j));
      assert t[w] == slugs[w];
    }
  }

  /** `populate_slugs`: each null slug, in table order, becomes the first free
      candidate of its title; rows that had a slug keep it, and the column
      stays unique. */
  method PopulateSlugs(slugs: array<Option<string>>, titles: seq<string>, slugify: string -> string)
    requires slugs.Length == |titles| && DistinctSlugs(slugs[..])
    modifies slugs
    ensures forall i | 0 <= i < slugs.Length :: old(slugs[i]).Some? ==> slugs[i] == old(slugs[i])
    ensures forall i | 0 <= i < slugs.Length :: slugs[i].Some?
    ensures DistinctSlugs(slugs[..])
    ensures forall i | 0 <= i < slugs.Length && old(slugs[i]).None? :: FirstFree(slugs[..], i, slugify(titles[i]))
  {
    for i := 0 to slugs.Length
      invariant forall j | 0 <= j < slugs.Length :: old(slugs[j]).Some? ==> slugs[j] == old(slugs[j])
      invariant forall j | i <= j < slugs.Length :: slugs[j] == old(slugs[j])
      invariant forall j | 0 <= j < i :: slugs[j].Some?
      invariant DistinctSlugs(slugs[..])
      invariant forall j | 0 <= j < i && old(slugs[j]).None? :: FirstFree(slugs[..], j, slugify(titles[j]))
    {
      if slugs[i].None? {
        ghost var before := slugs[..];
        var slug, k := FreeSlug(slugs[..], i, slugify(titles[i]));
        slugs[i] := Some(slug);
        assert slugs[..] == before[i := Some(slug)];
        forall j | 0 <= j < i && old(slugs[j]).None?
          ensures FirstFree(slugs[..], j, slugify(titles[j]))
        {
          FillKeepsFirstFree(before, i, slug, j, slugify(titles[j]));
        }
        forall j | 0 <= j < k ensures Taken(slugs[..], i, Candidate(slugify(titles[i]), j)) {
          var w :| 0 <= w < |before| && w != i && before[w] == Some(Candidate(slugify(titles[i]), j));
          assert slugs[w] == before[w];
        }
        forall a, b | 0 <= a < b < slugs.Length && slugs[a].Some? ensures slugs[a] != slugs[b] {
          if a == i {
            assert !(b != i && before[b] == Some(slug));
          } else if b == i {
            assert !(a != i && before[a] == Some(slug));
          }
        }
      }
    }
  }
}
