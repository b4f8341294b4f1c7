/** What several modules need of sequences and sets. */
module Collections {
  function Removed<T>(s: seq<T>, i: nat): (r: seq<T>)
    requires i < |s|
    ensures |r| == |s| - 1
  {
    s[..i] + s[i + 1..]
  }

  ghost predicate Distinct(xs: seq<int>) {
    forall i, j :: 0 <= i < j < |xs| ==> xs[i] != xs[j]
  }

  ghost function Elements(xs: seq<int>): set<int> {
    set x | x in xs
  }

  lemma {:induction false} SubsetCount<T>(xs: set<T>, ys: set<T>)
    requires xs <= ys
    ensures |xs| <= |ys|
  {
    if xs != {} {
      var x :| x in xs;
      SubsetCount(xs - {x}, ys - {x});
    }
  }

  // ---------------------------------------------------------------- sets side by side

  ghost function Union(fs: seq<set<int>>): set<int> {
    set i, a | 0 <= i < |fs| && a in fs[i] :: a
  }

  ghost predicate Apart(fs: seq<set<int>>) {
    forall i, j :: 0 <= i < j < |fs| ==> fs[i] !! fs[j]
  }

  lemma UnionAt(fs: seq<set<int>>, i: nat)
    requires i < |fs|
    ensures fs[i] <= Union(fs) && (Apart(fs) ==> forall j :: 0 <= j < |fs| && j != i ==> fs[j] !! fs[i])
  {
    forall a | a in fs[i] ensures a in Union(fs) {
    }
  }

  lemma UnionReplaced(fs: seq<set<int>>, i: nat, f: set<int>)
    requires i < |fs| && Apart(fs) && f !! Union(fs) - fs[i]
    ensures Union(fs[i := f]) == Union(fs) - fs[i] + f && Apart(fs[i := f])
  {
    var gs := fs[i := f];
    forall k | 0 <= k < |fs| && k != i ensures gs[k] <= Union(fs) - fs[i] {
      UnionAt(fs, k);
    }
    forall a | a in Union(fs) - fs[i] + f ensures a in Union(gs) {
      if a in f {
        assert a in gs[i];
      } else {
        var k :| 0 <= k < |fs| && a in fs[k];
        assert a in gs[k];
      }
    }
  }

  lemma UnionRemoved(fs: seq<set<int>>, i: nat)
    requires i < |fs| && Apart(fs)
    ensures Union(Removed(fs, i)) == Union(fs) - fs[i] && Apart(Removed(fs, i))
  {
    var gs := Removed(fs, i);
    forall a | a in Union(fs) - fs[i] ensures a in Union(gs) {
      var k :| 0 <= k < |fs| && a in fs[k];
      assert gs[if k < i then k else k - 1] == fs[k];
    }
    forall a | a in Union(gs) ensures a in Union(fs) - fs[i] {
      var k :| 0 <= k < |gs| && a in gs[k];
      assert gs[k] == fs[if k < i then k else k + 1];
    }
    forall j, k | 0 <= j < k < |gs| ensures gs[j] !! gs[k] {
      assert gs[j] == fs[if j < i then j else j + 1] && gs[k] == fs[if k < i then k else k + 1];
    }
  }

  lemma UnionPushed(fs: seq<set<int>>, f: set<int>)
    requires Apart(fs) && f !! Union(fs)
    ensures Union([f] + fs) == Union(fs) + f && Apart([f] + fs)
  {
    var gs := [f] + fs;
    forall a | a in Union(fs) ensures a in Union(gs) {
      var k :| 0 <= k < |fs| && a in fs[k];
      assert gs[k + 1] == fs[k];
    }
    forall a | a in f ensures a in Union(gs) {
      assert gs[0] == f;
    }
    forall j, k | 0 <= j < k < |gs| ensures gs[j] !! gs[k] {
      UnionAt(fs, k - 1);
      assert gs[k] == fs[k - 1] && (j > 0 ==> gs[j] == fs[j - 1]);
    }
  }
}
