/** The drift score of services/replay_verifier/drift.py. */
module Drift {
  import opened Common
  import opened Json

  /** Python's `==` on two values that are not both dicts, nor both lists, nor
      None: a bool equals the number 1 or 0, and NaN equals nothing. */
  predicate ScalarEqual(a: Json, b: Json) {
    match (a, b)
    case (Str(s), Str(t)) => s == t
    case (Bool(_), Bool(_)) => a == b
    case (Num(_), Num(_)) => a == b
    case (Inf(_), Inf(_)) => a == b
    case (Bool(x), Num(n)) => n == if x then 1.0 else 0.0
    case (Num(n), Bool(x)) => n == if x then 1.0 else 0.0
    case _ => false
  }

  /** A key missing on one side is compared as None, which equals only None. */
  predicate DeepEqual(a: Json, b: Json) {
    match (a, b)
    case (Null, Null) => true
    case (Obj(f), Obj(g)) =>
      forall k :: k in f.Keys + g.Keys ==>
        if k in f && k in g then DeepEqual(f[k], g[k])
        else if k in f then f[k] == Null
        else g[k] == Null
    case (Arr(s), Arr(t)) =>
      |s| == |t| && forall i :: 0 <= i < |s| ==> DeepEqual(s[i], t[i])
    case _ => ScalarEqual(a, b)
  }

  /** The value with None-valued keys dropped at every level, and each bool
      replaced by the number it equals. List elements are kept, None or not. */
  function Stripped(a: Json): Json {
    match a
    case Bool(b) => Num(if b then 1.0 else 0.0)
    case Arr(s) => Arr(seq(|s|, i requires 0 <= i < |s| => Stripped(s[i])))
    case Obj(f) => Obj(map k | k in f && f[k] != Null :: Stripped(f[k]))
    case _ => a
  }

  predicate NaNFree(a: Json) {
    match a
    case NaN => false
    case Arr(s) => forall i :: 0 <= i < |s| ==> NaNFree(s[i])
    case Obj(f) => forall k :: k in f ==> NaNFree(f[k])
    case _ => true
  }

  lemma StrippedNull(a: Json)
    ensures Stripped(a) == Null <==> a == Null
  {
  }

  ghost predicate Characterised(a: Json, b: Json) {
    DeepEqual(a, b) <==> Stripped(a) == Stripped(b) && NaNFree(a)
  }

  /** Deep equality is equality of the stripped values, on values without NaN. */
  lemma {:induction false} DeepEqualIsStrippedEqual(a: Json, b: Json)
    ensures DeepEqual(a, b) <==> Stripped(a) == Stripped(b) && NaNFree(a)
    decreases a
  {
    match (a, b)
    case (Obj(f), Obj(g)) =>
      forall k | k in f && k in g
        ensures Characterised(f[k], g[k])
      {
        DeepEqualIsStrippedEqual(f[k], g[k]);
      }
      if DeepEqual(a, b) { EqualObjectsStrip(f, g); }
      if Stripped(a) == Stripped(b) && NaNFree(a) { StrippedObjectsEqual(f, g); }
    case (Arr(s), Arr(t)) =>
      forall i | 0 <= i < |s| && i < |t|
        ensures Characterised(s[i], t[i])
      {
        DeepEqualIsStrippedEqual(s[i], t[i]);
      }
      ArraysEqual(s, t);
    case _ =>
  }

  lemma ArraysEqual(s: seq<Json>, t: seq<Json>)
    requires forall i :: 0 <= i < |s| && i < |t| ==> Characterised(s[i], t[i])
    ensures Characterised(Arr(s), Arr(t))
  {
    var ss, st := Stripped(Arr(s)).items, Stripped(Arr(t)).items;
    assert |ss| == |s| && |st| == |t|;
    if |s| == |t| {
      assert forall i :: 0 <= i < |s| ==> ss[i] == Stripped(s[i]) && st[i] == Stripped(t[i]);
      assert ss == st <==> forall i :: 0 <= i < |s| ==> ss[i] == st[i];
    }
  }

  lemma EqualAtKey(f: map<string, Json>, g: map<string, Json>, k: string)
    requires DeepEqual(Obj(f), Obj(g)) && (k in f || k in g)
    requires k in f && k in g ==> Characterised(f[k], g[k])
    ensures k in f && f[k] != Null <==> k in g && g[k] != Null
    ensures k in f && f[k] != Null ==> Stripped(f[k]) == Stripped(g[k])
    ensures k in f ==> NaNFree(f[k])
  {
    assert k in f.Keys + g.Keys;
    if k in f && k in g { StrippedNull(f[k]); StrippedNull(g[k]); }
  }

  lemma EqualObjectsStrip(f: map<string, Json>, g: map<string, Json>)
    requires forall k :: k in f && k in g ==> Characterised(f[k], g[k])
    requires DeepEqual(Obj(f), Obj(g))
    ensures Stripped(Obj(f)) == Stripped(Obj(g)) && NaNFree(Obj(f))
  {
    var sf, sg := Stripped(Obj(f)).fields, Stripped(Obj(g)).fields;
    forall k | k in f || k in g
      ensures (k in f && f[k] != Null <==> k in g && g[k] != Null)
              && (k in f && f[k] != Null ==> Stripped(f[k]) == Stripped(g[k])) && (k in f ==> NaNFree(f[k]))
    {
      EqualAtKey(f, g, k);
    }
    hide DeepEqual, Characterised;
    assert sf.Keys == sg.Keys;
    assert sf == sg;
  }

  lemma StrippedObjectsEqual(f: map<string, Json>, g: map<string, Json>)
    requires forall k :: k in f && k in g ==> Characterised(f[k], g[k])
    requires Stripped(Obj(f)) == Stripped(Obj(g)) && NaNFree(Obj(f))
    ensures DeepEqual(Obj(f), Obj(g))
  {
    var sf, sg := Stripped(Obj(f)).fields, Stripped(Obj(g)).fields;
    forall k | k in f.Keys + g.Keys
      ensures if k in f && k in g then DeepEqual(f[k], g[k]) else if k in f then f[k] == Null else g[k] == Null
    {
      assert k in sf <==> k in sg;
      if k in f && k in g {
        if k in sf { assert sf[k] == sg[k]; }
      }
    }
  }

  lemma {:induction false} DeepEqualSymmetric(a: Json, b: Json)
    requires DeepEqual(a, b)
    ensures DeepEqual(b, a)
  {
    DeepEqualIsStrippedEqual(a, b);
    NaNFreeIsStripped(a, b);
    DeepEqualIsStrippedEqual(b, a);
  }

  /** Values that strip alike are alike in holding a NaN. */
  lemma {:induction false} NaNFreeIsStripped(a: Json, b: Json)
    requires Stripped(a) == Stripped(b) && NaNFree(a)
    ensures NaNFree(b)
    decreases a
  {
    match (a, b)
    case (Obj(f), Obj(g)) =>
      var sf, sg := Stripped(a).fields, Stripped(b).fields;
      assert sf == sg;
      forall k | k in g
        ensures NaNFree(g[k])
      {
        if g[k] != Null {
          assert k in sg && k in sf && sf[k] == sg[k];
          NaNFreeIsStripped(f[k], g[k]);
        }
      }
    case (Arr(s), Arr(t)) =>
      var ss, st := Stripped(a).items, Stripped(b).items;
      forall i | 0 <= i < |t|
        ensures NaNFree(t[i])
      {
        assert ss[i] == st[i] == Stripped(t[i]) && ss[i] == Stripped(s[i]);
        NaNFreeIsStripped(s[i], t[i]);
      }
    case _ =>
  }

  lemma {:induction false} DeepEqualTransitive(a: Json, b: Json, c: Json)
    requires DeepEqual(a, b) && DeepEqual(b, c)
    ensures DeepEqual(a, c)
  {
    DeepEqualIsStrippedEqual(a, b);
    DeepEqualIsStrippedEqual(b, c);
    DeepEqualIsStrippedEqual(a, c);
  }

  /** A value equals itself exactly when it holds no NaN. */
  lemma {:induction false} DeepEqualReflexive(a: Json)
    ensures DeepEqual(a, a) <==> NaNFree(a)
  {
    DeepEqualIsStrippedEqual(a, a);
  }

  // ------------------------------------------------------------------- score

  type Manifest = map<string, Json>

  const TRACKED_KEYS := ["deps", "env", "patch_hash", "kernel_trace_hash", "artifact_hash", "deps_state", "policy_hash"]

  predicate Drifts(old_: Manifest, new_: Manifest, key: string) {
    !DeepEqual(Get(old_, key), Get(new_, key))
  }

  /** How many of the keys drifted, a repeated key counting each time. */
  function DriftCount(old_: Manifest, new_: Manifest, keys: seq<string>): (n: nat)
    ensures n <= |keys|
  {
    if keys == [] then 0
    else DriftCount(old_, new_, keys[..|keys| - 1]) + (if Drifts(old_, new_, keys[|keys| - 1]) then 1 else 0)
  }

  function Keys(tracked: seq<string>): (keys: seq<string>)
    ensures keys != []
  {
    if tracked == [] then TRACKED_KEYS else tracked
  }

  function Score(old_: Manifest, new_: Manifest, tracked: seq<string>): real {
    DriftCount(old_, new_, Keys(tracked)) as real / |Keys(tracked)| as real
  }

  /** An empty `tracked` stands for None as well: both select the default keys. */
  method ComputeDrift(old_: Manifest, new_: Manifest, tracked: seq<string>) returns (score: real, mismatches: map<string, bool>)
    ensures score == Score(old_, new_, tracked)
    ensures forall k :: k in mismatches <==> k in Keys(tracked)
    ensures forall k :: k in mismatches ==> (mismatches[k] <==> Drifts(old_, new_, k))
  {
    var keys := Keys(tracked);
    mismatches := map[];
    var drifted := 0;
    for i := 0 to |keys|
      invariant drifted == DriftCount(old_, new_, keys[..i])
      invariant forall k :: k in mismatches <==> k in keys[..i]
      invariant forall k :: k in mismatches ==> (mismatches[k] <==> Drifts(old_, new_, k))
    {
      var key := keys[i];
      assert keys[..i + 1] == keys[..i] + [key];
      assert keys[..i + 1][..i] == keys[..i];
      if !DeepEqual(Get(old_, key), Get(new_, key)) {
        mismatches := mismatches[key := true];
        drifted := drifted + 1;
      } else {
        mismatches := mismatches[key := false];
      }
    }
    assert keys[..|keys|] == keys;
    score := drifted as real / (if |keys| > 1 then |keys| else 1) as real;
  }

  lemma {:induction false} CountTriangle(a: Manifest, b: Manifest, c: Manifest, keys: seq<string>)
    ensures DriftCount(a, c, keys) <= DriftCount(a, b, keys) + DriftCount(b, c, keys)
  {
    if keys != [] {
      var k := keys[|keys| - 1];
      CountTriangle(a, b, c, keys[..|keys| - 1]);
      if !Drifts(a, b, k) && !Drifts(b, c, k) {
        DeepEqualTransitive(Get(a, k), Get(b, k), Get(c, k));
      }
    }
  }

  lemma {:induction false} CountSymmetric(a: Manifest, b: Manifest, keys: seq<string>)
    ensures DriftCount(a, b, keys) == DriftCount(b, a, keys)
  {
    if keys != [] {
      var k := keys[|keys| - 1];
      CountSymmetric(a, b, keys[..|keys| - 1]);
      if !Drifts(a, b, k) { DeepEqualSymmetric(Get(a, k), Get(b, k)); }
      if !Drifts(b, a, k) { DeepEqualSymmetric(Get(b, k), Get(a, k)); }
    }
  }

  lemma {:induction false} CountZero(a: Manifest, b: Manifest, keys: seq<string>)
    ensures DriftCount(a, b, keys) == 0 <==>
            forall i :: 0 <= i < |keys| ==> Stripped(Get(a, keys[i])) == Stripped(Get(b, keys[i])) && NaNFree(Get(a, keys[i]))
  {
    if keys != [] {
      var front, k := keys[..|keys| - 1], keys[|keys| - 1];
      CountZero(a, b, front);
      DeepEqualIsStrippedEqual(Get(a, k), Get(b, k));
    }
  }

  lemma Fractions(ab: nat, bc: nat, ac: nat, n: nat)
    requires 0 < n && ab <= n && ac <= ab + bc
    ensures 0.0 <= ab as real / n as real <= 1.0
    ensures ab as real / n as real == 0.0 <==> ab == 0
    ensures ac as real / n as real <= ab as real / n as real + bc as real / n as real
  {
    var x, y, z, m, d := ab as real, bc as real, ac as real, n as real, 1.0 / n as real;
    Over(ab, n);
    Over(bc, n);
    Over(ac, n);
    Unit(n);
    Scaled(z, x + y, d);
    Distributed(x, y, d);
    Scaled(x, m, d);
  }

  lemma Over(k: nat, n: nat)
    requires n > 0
    ensures k as real / n as real == k as real * (1.0 / n as real)
    ensures k as real / n as real == 0.0 <==> k == 0
  {
  }

  lemma Unit(n: nat)
    requires n > 0
    ensures n as real * (1.0 / n as real) == 1.0 && 1.0 / n as real > 0.0
  {
  }

  lemma Distributed(x: real, y: real, d: real)
    ensures (x + y) * d == x * d + y * d
  {
  }

  lemma Scaled(x: real, y: real, d: real)
    requires x <= y && d > 0.0
    ensures x * d <= y * d && (x >= 0.0 ==> x * d >= 0.0)
  {
  }

  /** The score is a pseudometric on manifests bounded by 1: it is 0 exactly
      when every tracked value strips alike and holds no NaN, it does not depend
      on the order of the two manifests, and it obeys the triangle inequality. */
  lemma ScoreIsPseudometric(a: Manifest, b: Manifest, c: Manifest, tracked: seq<string>)
    ensures 0.0 <= Score(a, b, tracked) <= 1.0
    ensures Score(a, b, tracked) == 0.0 <==>
            forall i :: 0 <= i < |Keys(tracked)| ==>
              var k := Keys(tracked)[i];
              Stripped(Get(a, k)) == Stripped(Get(b, k)) && NaNFree(Get(a, k))
    ensures Score(a, b, tracked) == Score(b, a, tracked)
    ensures Score(a, c, tracked) <= Score(a, b, tracked) + Score(b, c, tracked)
  {
    var keys := Keys(tracked);
    CountZero(a, b, keys);
    CountSymmetric(a, b, keys);
    CountTriangle(a, b, c, keys);
    Fractions(DriftCount(a, b, keys), DriftCount(b, c, keys), DriftCount(a, c, keys), |keys|);
    hide DriftCount, Stripped, NaNFree;
  }

  /** Drift is a difference of some value, seen case by case: dicts are compared key
      by key with a missing key reading as None, lists place by place, and nothing
      but a bool and its number is equal across kinds. */
  lemma {:induction false} EqualCases(f: map<string, Json>, g: map<string, Json>, s: seq<Json>, t: seq<Json>, b: bool, n: real, a: Json)
    ensures DeepEqual(Obj(f), Obj(g)) <==> forall k :: k in f || k in g ==> DeepEqual(Get(f, k), Get(g, k))
    ensures DeepEqual(Arr(s), Arr(t)) <==> |s| == |t| && forall i :: 0 <= i < |s| ==> DeepEqual(s[i], t[i])
    ensures DeepEqual(Null, a) <==> a == Null
    ensures DeepEqual(Bool(b), Num(n)) <==> n == (if b then 1.0 else 0.0)
    ensures DeepEqual(Num(n), a) <==> a == Num(n) || (n == 1.0 && a == Bool(true)) || (n == 0.0 && a == Bool(false))
    ensures (a.Str? || a.Inf?) ==> forall x :: DeepEqual(a, x) <==> x == a
  {
    forall k | k in f || k in g
      ensures DeepEqual(Get(f, k), Get(g, k)) <==>
              if k in f && k in g then DeepEqual(f[k], g[k]) else if k in f then f[k] == Null else g[k] == Null
    {
      WithNull(Get(f, k));
      WithNull(Get(g, k));
    }
    assert forall k :: k in f.Keys + g.Keys <==> k in f || k in g;
  }

  lemma WithNull(a: Json)
    ensures DeepEqual(a, Null) <==> a == Null
    ensures DeepEqual(Null, a) <==> a == Null
  {
  }

  lemma {:induction false} CountPlaces(a: Manifest, b: Manifest, keys: seq<string>, places: set<int>)
    requires forall i :: i in places <==> 0 <= i < |keys| && Drifts(a, b, keys[i])
    ensures DriftCount(a, b, keys) == |places|
  {
    hide Drifts;
    if keys == [] {
      NoPlaces(places);
    } else {
      var n := |keys| - 1;
      CountPlaces(a, b, keys[..n], places - {n});
    }
  }

  lemma NoPlaces(places: set<int>)
    requires forall i :: i !in places
    ensures |places| == 0
  {
    if places != {} { var i := Pick(places); }
  }

  lemma {:induction false} ShareOf(a: Manifest, b: Manifest, keys: seq<string>, places: set<int>)
    requires keys != [] && forall i :: i in places <==> 0 <= i < |keys| && !DeepEqual(Get(a, keys[i]), Get(b, keys[i]))
    ensures var share := DriftCount(a, b, keys) as real / |keys| as real;
            && share == |places| as real / |keys| as real
            && (share == 1.0 <==> forall i :: 0 <= i < |keys| ==> !DeepEqual(Get(a, keys[i]), Get(b, keys[i])))
  {
    hide DriftCount;
    CountPlaces(a, b, keys, places);
    AllPlaces(places, |keys|);
    WholeShare(|places|, |keys|);
  }

  lemma WholeShare(k: nat, n: nat)
    requires n > 0
    ensures k as real / n as real == 1.0 <==> k == n
  {
    Over(k, n);
    Unit(n);
    var d := 1.0 / n as real;
    if k < n {
      Scaled(k as real + 1.0, n as real, d);
      Distributed(k as real, 1.0, d);
    } else if k > n {
      Scaled(n as real + 1.0, k as real, d);
      Distributed(n as real, 1.0, d);
    }
  }

  /** The score is the share of the tracked keys - seven, if none are given - under
      which the two manifests differ. It is 1 exactly when they differ under all. */
  lemma {:induction false} ScoreIsShare(a: Manifest, b: Manifest, tracked: seq<string>, keys: seq<string>, places: set<int>)
    requires keys == if tracked != [] then tracked
                     else ["deps", "env", "patch_hash", "kernel_trace_hash", "artifact_hash", "deps_state", "policy_hash"]
    requires forall i :: i in places <==> 0 <= i < |keys| && !DeepEqual(Get(a, keys[i]), Get(b, keys[i]))
    ensures keys == Keys(tracked) && Score(a, b, tracked) == |places| as real / |keys| as real
    ensures Score(a, b, tracked) == 1.0 <==> forall i :: 0 <= i < |keys| ==> !DeepEqual(Get(a, keys[i]), Get(b, keys[i]))
  {
    ShareOf(a, b, keys, places);
  }

  lemma {:induction false} AllPlaces(places: set<int>, n: nat)
    requires forall i :: i in places ==> 0 <= i < n
    ensures |places| <= n
    ensures |places| == n <==> forall i :: 0 <= i < n ==> i in places
  {
    if n == 0 {
      NoPlaces(places);
    } else {
      AllPlaces(places - {n - 1}, n - 1);
      if n - 1 !in places { assert places - {n - 1} == places; }
    }
  }
}
