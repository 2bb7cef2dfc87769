/** The directory of rejection records (_prune_rejections in t300_mainline/admission_daemon.py): file
    names with their time stamps, the oldest of which are removed. */
module RejectionRecords {
  type Records = map<string, int>

  /** The order of Python strings. */
  predicate Less(a: string, b: string) {
    b != [] && (a == [] || a[0] < b[0] || (a[0] == b[0] && Less(a[1..], b[1..])))
  }

  lemma {:induction false} LessTotal(a: string, b: string)
    ensures Less(a, b) || Less(b, a) <==> a != b
    ensures !(Less(a, b) && Less(b, a))
  {
    if a != [] && b != [] {
      LessTotal(a[1..], b[1..]);
      assert a == [a[0]] + a[1..] && b == [b[0]] + b[1..];
    }
  }

  lemma {:induction false} LessTrans(a: string, b: string, c: string)
    requires Less(a, b) && Less(b, c)
    ensures Less(a, c)
  {
    if a != [] && a[0] == b[0] == c[0] { LessTrans(a[1..], b[1..], c[1..]); }
  }

  /** The first place where they differ decides. */
  lemma {:induction false} LessExactly(a: string, b: string)
    ensures Less(a, b) <==> exists k :: 0 <= k <= |a| && k < |b| && a[..k] == b[..k] && (k < |a| ==> a[k] < b[k])
  {
    if a == [] || b == [] || a[0] != b[0] {
      if Less(a, b) { assert a[..0] == b[..0]; }
      forall k | 0 < k <= |a| && k < |b| ensures a[..k] != b[..k] {
        assert a[..k][0] == a[0] && b[..k][0] == b[0];
      }
    } else {
      var c, d := a[1..], b[1..];
      LessExactly(c, d);
      if k :| 0 <= k <= |c| && k < |d| && c[..k] == d[..k] && (k < |c| ==> c[k] < d[k]) {
        assert a[..k + 1] == [a[0]] + c[..k] && b[..k + 1] == [b[0]] + d[..k];
        assert a[..k + 1] == b[..k + 1];
      }
      if k :| 0 <= k <= |a| && k < |b| && a[..k] == b[..k] && (k < |a| ==> a[k] < b[k]) {
        assert k > 0;
        assert c[..k - 1] == a[..k][1..] && d[..k - 1] == b[..k][1..];
      }
    }
  }

  /** The order of (mtime_ns, name). */
  predicate Older(m: Records, a: string, b: string)
    requires a in m && b in m
  {
    m[a] < m[b] || (m[a] == m[b] && Less(a, b))
  }

  predicate IsOldest(m: Records, a: string) { a in m && forall b :: b in m && b != a ==> Older(m, a, b) }

  /** At most `limit` records are left, as they were, and none that went is younger than one that stays. */
  predicate IsPruned(m: Records, limit: nat, kept: Records) {
    && (forall a :: a in kept ==> a in m && kept[a] == m[a])
    && |kept| == (if |m| <= limit then |m| else limit)
    && (forall a, b :: a in m && a !in kept && b in kept ==> Older(m, a, b))
  }

  lemma SubsetOfSameSize(a: set<string>, b: set<string>)
    requires a <= b && |a| == |b|
    ensures a == b
  {
    assert |b - a| == |b| - |a|;
  }

  /** That says which ones are left. */
  lemma PrunedIsUnique(m: Records, limit: nat, kept: Records, kept': Records)
    requires IsPruned(m, limit, kept) && IsPruned(m, limit, kept')
    ensures kept == kept'
  {
    assert |kept.Keys| == |kept'.Keys|;
    if kept.Keys != kept'.Keys {
      if kept.Keys <= kept'.Keys { SubsetOfSameSize(kept.Keys, kept'.Keys); }
      if kept'.Keys <= kept.Keys { SubsetOfSameSize(kept'.Keys, kept.Keys); }
      var a :| a in kept.Keys && a !in kept'.Keys;
      var b :| b in kept'.Keys && b !in kept.Keys;
      assert Older(m, a, b) && Older(m, b, a);
      LessTotal(a, b);
      assert false;
    }
  }

  /** The first of the sorted records. */
  method Oldest(m: Records) returns (name: string)
    requires m != map[]
    ensures IsOldest(m, name)
  {
    name :| name in m;
    var left := m.Keys - {name};
    while left != {}
      invariant left <= m.Keys && name in m && name !in left
      invariant forall b :: b in m && b != name && b !in left ==> Older(m, name, b)
    {
      var next :| next in left;
      left := left - {next};
      LessTotal(name, next);
      if !Older(m, name, next) {
        ghost var name0 := name;
        forall b | b in m && b != next && b !in left ensures Older(m, next, b) {
          if b != name0 && m[next] == m[name0] == m[b] { LessTrans(next, name0, b); }
        }
        name := next;
      }
    }
  }

  /** _prune_rejections */
  method Prune(m: Records, limit: nat) returns (kept: Records)
    ensures IsPruned(m, limit, kept) && (|m| <= limit ==> kept == m)
  {
    kept := m;
    while |kept| > limit
      invariant forall a :: a in kept ==> a in m && kept[a] == m[a]
      invariant |kept| <= |m| && (|m| <= limit ==> kept == m) && (|m| > limit ==> |kept| >= limit)
      invariant forall a, b :: a in m && a !in kept && b in kept ==> Older(m, a, b)
    {
      var name := Oldest(kept);
      assert forall b :: b in kept && b != name ==> Older(kept, name, b);
      assert (kept - {name}).Keys == kept.Keys - {name};
      kept := kept - {name};
    }
  }

  /** No record that goes is younger than one that stays. */
  lemma PrunedByTime(m: Records, limit: nat, kept: Records, a: string, b: string)
    requires IsPruned(m, limit, kept) && a in m && a !in kept && b in kept
    ensures m[a] <= kept[b]
  {
    assert Older(m, a, b);
  }
}
