/** `FBConfig`: the table of supported configurations and the choice among them. */
module Configs {
  const EGL_NONE := 0x3038
  const EGL_SURFACE_TYPE := 0x3033
  const EGL_PBUFFER_BIT := 0x0001

  // ---------------------------------------------------------------- the table

  datatype Config = Config(id: int, surfaceType: nat, red: nat, green: nat, blue: nat)

  predicate HasPbuffer(c: Config) { c.surfaceType % 2 == 1 }

  predicate IsRgb(c: Config) { c.red != 0 && c.green != 0 && c.blue != 0 }

  predicate Supported(c: Config) { HasPbuffer(c) && IsRgb(c) }

  function Filter<T>(p: T -> bool, s: seq<T>): seq<T> {
    if s == [] then [] else (if p(s[0]) then [s[0]] else []) + Filter(p, s[1..])
  }

  lemma {:induction false} FilterAppend<T>(p: T -> bool, s: seq<T>, x: T)
    ensures Filter(p, s + [x]) == Filter(p, s) + if p(x) then [x] else []
  {
    if s == [] {
      assert [x][1..] == [];
    } else {
      assert (s + [x])[1..] == s[1..] + [x];
      FilterAppend(p, s[1..], x);
    }
  }

  lemma {:induction false} FilterMembers<T>(p: T -> bool, s: seq<T>, x: T)
    ensures x in Filter(p, s) <==> x in s && p(x)
  {
    if s != [] {
      FilterMembers(p, s[1..], x);
      assert s == [s[0]] + s[1..];
    }
  }

  /** `initConfigList`: copies the supported configurations into a table as long as the display's list. */
  method InitConfigList(configs: seq<Config>) returns (table: array<Config>, numConfigs: nat, passed: bool)
    ensures numConfigs <= table.Length == |configs|
    ensures table[..numConfigs] == Filter(Supported, configs)
    ensures passed <==> exists c :: c in configs && Supported(c)
  {
    table := new Config[|configs|](_ => Config(0, 0, 0, 0, 0));
    numConfigs := 0;
    for i := 0 to |configs|
      invariant numConfigs <= i
      invariant table[..numConfigs] == Filter(Supported, configs[..i])
    {
      assert configs[..i + 1] == configs[..i] + [configs[i]];
      FilterAppend(Supported, configs[..i], configs[i]);
      if !HasPbuffer(configs[i]) { continue; }
      if configs[i].red == 0 || configs[i].green == 0 || configs[i].blue == 0 { continue; }
      table[numConfigs] := configs[i];
      numConfigs := numConfigs + 1;
    }
    assert configs[..|configs|] == configs;
    passed := numConfigs > 0;
    if passed {
      FilterMembers(Supported, configs, table[0]);
      assert table[..numConfigs][0] == table[0];
    } else {
      forall c | c in configs
        ensures !Supported(c)
      {
        FilterMembers(Supported, configs, c);
      }
    }
  }

  // ---------------------------------------------------------------- the choice

  /** The first index at which the table has this id, or its length. */
  function IndexOf(table: seq<Config>, id: int): (i: nat)
    ensures i <= |table| && (i < |table| ==> table[i].id == id)
    ensures forall j :: 0 <= j < i ==> table[j].id != id
  {
    if table == [] || table[0].id == id then 0 else
      var i := IndexOf(table[1..], id);
      assert forall j :: 0 < j <= i ==> table[j] == table[1..][j - 1] || j == |table|;
      1 + i
  }

  /** The table indices of the matched configurations, in the order EGL returned them. */
  function Hits(matched: seq<Config>, table: seq<Config>): (hits: seq<nat>)
    ensures |hits| <= |matched| && forall i :: 0 <= i < |hits| ==> hits[i] < |table|
  {
    if matched == [] then [] else
      var before := Hits(matched[..|matched| - 1], table);
      var i := IndexOf(table, matched[|matched| - 1].id);
      if i < |table| then before + [i] else before
  }

  lemma {:induction false} HitsOfPrefix(matched: seq<Config>, table: seq<Config>, k: nat)
    requires k <= |matched|
    ensures Hits(matched[..k], table) <= Hits(matched, table)
    decreases |matched| - k
  {
    if k == |matched| {
      assert matched[..k] == matched;
    } else {
      assert matched[..k + 1][..k] == matched[..k];
      HitsOfPrefix(matched, table, k + 1);
    }
  }

  /** The intersection loop: fills at most `size` entries, and without an output array only counts. */
  method ChooseConfig(matched: seq<Config>, table: seq<Config>, configs: array?<nat>, size: nat) returns (n: nat)
    requires configs != null ==> size <= configs.Length
    modifies configs
    ensures var hits := Hits(matched, table);
            if configs != null && size > 0 then
              && n == (if |hits| < size then |hits| else size)
              && configs[..n] == hits[..n] && configs[n..] == old(configs[n..])
            else n == |hits| && (configs != null ==> configs[..] == old(configs[..]))
  {
    n := 0;
    var m := 0;
    while m < |matched|
      invariant m <= |matched|
      invariant configs == null || size == 0 || n <= size
      invariant n == |Hits(matched[..m], table)|
      invariant configs != null && size > 0 ==> configs[..n] == Hits(matched[..m], table)
      invariant configs != null ==> forall k :: (if size > 0 then n else 0) <= k < configs.Length ==>
                  configs[k] == old(configs[k])
    {
      if configs != null && size > 0 && n >= size { break; }
      assert matched[..m + 1][..m] == matched[..m];
      var fbIdx := FindId(table, matched[m].id);
      if fbIdx < |table| {
        if configs != null && n < size {
          configs[n] := fbIdx;
        }
        n := n + 1;
      }
      m := m + 1;
    }
    HitsOfPrefix(matched, table, m);
    assert m == |matched| ==> matched[..m] == matched;
  }

  method FindId(table: seq<Config>, id: int) returns (fbIdx: nat)
    ensures fbIdx == IndexOf(table, id)
  {
    fbIdx := 0;
    while fbIdx < |table|
      invariant fbIdx <= |table| && fbIdx + IndexOf(table[fbIdx..], id) == IndexOf(table, id)
    {
      assert table[fbIdx..][1..] == table[fbIdx + 1..];
      if table[fbIdx].id == id { break; }
      fbIdx := fbIdx + 1;
    }
  }

  ghost predicate UniqueIds(configs: seq<Config>) {
    forall c, d :: c in configs && d in configs && c.id == d.id ==> c == d
  }

  function Picked(table: seq<Config>, hits: seq<nat>): seq<Config>
    requires forall i :: 0 <= i < |hits| ==> hits[i] < |table|
  {
    if hits == [] then [] else Picked(table, hits[..|hits| - 1]) + [table[hits[|hits| - 1]]]
  }

  lemma HitIsSame(configs: seq<Config>, c: Config)
    requires UniqueIds(configs) && c in configs && HasPbuffer(c)
    ensures var table := Filter(Supported, configs);
            var i := IndexOf(table, c.id);
            if IsRgb(c) then i < |table| && table[i] == c else i == |table|
  {
    var table := Filter(Supported, configs);
    var i := IndexOf(table, c.id);
    FilterMembers(Supported, configs, c);
    if i < |table| {
      FilterMembers(Supported, configs, table[i]);
      assert table[i] in configs;
    }
  }

  /**
   * With unique ids, and EGL honouring the forced pbuffer bit, the chosen table entries are the
   * matched configurations in EGL's order, less those with a zero red, green or blue size.
   */
  lemma {:induction false} ChosenAreMatched(configs: seq<Config>, matched: seq<Config>)
    requires UniqueIds(configs)
    requires forall i :: 0 <= i < |matched| ==> matched[i] in configs && HasPbuffer(matched[i])
    ensures var table := Filter(Supported, configs);
            Picked(table, Hits(matched, table)) == Filter(IsRgb, matched)
  {
    if matched != [] {
      var front, c := matched[..|matched| - 1], matched[|matched| - 1];
      var table := Filter(Supported, configs);
      assert matched == front + [c];
      ChosenAreMatched(configs, front);
      HitIsSame(configs, c);
      FilterAppend(IsRgb, front, c);
      var hits := Hits(matched, table);
      if IsRgb(c) {
        assert hits[..|hits| - 1] == Hits(front, table);
      }
    }
  }

  // ---------------------------------------------------------------- the attribute list

  /** `n` attribute-value pairs read from the front of a list. */
  function Pairs(list: seq<int>, n: nat): (pairs: seq<(int, int)>)
    requires 2 * n <= |list|
    ensures |pairs| == n
  {
    if n == 0 then [] else Pairs(list, n - 1) + [(list[2 * n - 2], list[2 * n - 1])]
  }

  function Flat(pairs: seq<(int, int)>): (list: seq<int>)
    ensures |list| == 2 * |pairs|
  {
    if pairs == [] then [] else
      var last := pairs[|pairs| - 1];
      Flat(pairs[..|pairs| - 1]) + [last.0, last.1]
  }

  predicate IsSurfaceType(p: (int, int)) { p.0 == EGL_SURFACE_TYPE }

  predicate IsOther(p: (int, int)) { p.0 != EGL_SURFACE_TYPE }

  function Force(p: (int, int)): (int, int) {
    if IsSurfaceType(p) then (EGL_SURFACE_TYPE, EGL_PBUFFER_BIT) else p
  }

  function ForceAll(pairs: seq<(int, int)>): (forced: seq<(int, int)>)
    ensures |forced| == |pairs|
  {
    if pairs == [] then [] else ForceAll(pairs[..|pairs| - 1]) + [Force(pairs[|pairs| - 1])]
  }

  /** The list that is handed to `eglChooseConfig`. */
  function Rewritten(pairs: seq<(int, int)>): seq<(int, int)> {
    if exists p :: p in pairs && IsSurfaceType(p) then ForceAll(pairs)
    else [(EGL_SURFACE_TYPE, EGL_PBUFFER_BIT)] + pairs
  }

  lemma {:induction false} ForceAllLaws(pairs: seq<(int, int)>)
    ensures Filter(IsOther, ForceAll(pairs)) == Filter(IsOther, pairs)
    ensures forall p :: p in ForceAll(pairs) && IsSurfaceType(p) ==> p.1 == EGL_PBUFFER_BIT
    ensures (exists p :: p in pairs && IsSurfaceType(p)) ==> (EGL_SURFACE_TYPE, EGL_PBUFFER_BIT) in ForceAll(pairs)
    ensures AllOther(pairs) ==> ForceAll(pairs) == pairs
  {
    if pairs != [] {
      var front, last := pairs[..|pairs| - 1], pairs[|pairs| - 1];
      assert pairs == front + [last];
      ForceAllLaws(front);
      FilterAppend(IsOther, front, last);
      FilterAppend(IsOther, ForceAll(front), Force(last));
    }
  }

  /** Every surface type asked for is a pbuffer, one is asked for, and all other pairs stay, in order. */
  lemma RewrittenLaws(pairs: seq<(int, int)>)
    ensures var list := Rewritten(pairs);
            && (EGL_SURFACE_TYPE, EGL_PBUFFER_BIT) in list
            && (forall p :: p in list && IsSurfaceType(p) ==> p.1 == EGL_PBUFFER_BIT)
            && Filter(IsOther, list) == Filter(IsOther, pairs)
  {
    ForceAllLaws(pairs);
    var added := [(EGL_SURFACE_TYPE, EGL_PBUFFER_BIT)] + pairs;
    assert added[1..] == pairs;
  }

  ghost predicate Ends(list: seq<int>, i: nat) {
    2 * i < |list| && list[2 * i] == EGL_NONE
  }

  /** The first `EGL_NONE` in attribute position comes after `n` pairs. */
  ghost predicate Terminated(list: seq<int>, n: nat) {
    Ends(list, n) && forall i :: 0 <= i < n ==> !Ends(list, i)
  }

  ghost predicate AllOther(pairs: seq<(int, int)>) {
    forall p :: p in pairs ==> IsOther(p)
  }

  /** One more pair of the list, and what the loop makes of it. */
  lemma PairsStep(list: seq<int>, k: nat)
    requires 2 * k + 2 <= |list|
    ensures var p := (list[2 * k], list[2 * k + 1]);
            && Flat(ForceAll(Pairs(list, k + 1))) == Flat(ForceAll(Pairs(list, k))) + [Force(p).0, Force(p).1]
            && (AllOther(Pairs(list, k + 1)) <==> AllOther(Pairs(list, k)) && IsOther(p))
  {
    var p, pairs := (list[2 * k], list[2 * k + 1]), Pairs(list, k);
    assert Pairs(list, k + 1) == pairs + [p];
    assert (pairs + [p])[..k] == pairs;
    assert ForceAll(pairs + [p]) == ForceAll(pairs) + [Force(p)];
    assert (ForceAll(pairs) + [Force(p)])[..k] == ForceAll(pairs);
  }

  /** The first `k` pairs of `was` are forced in `list`, the rest is as it was. */
  ghost predicate ForcedTo(list: seq<int>, was: seq<int>, k: nat, needToAdd: bool) {
    && |list| == |was| >= 2 * k
    && list[..2 * k] == Flat(ForceAll(Pairs(was, k)))
    && list[2 * k..] == was[2 * k..]
    && (needToAdd <==> AllOther(Pairs(was, k)))
  }

  lemma ForcedNext(list: seq<int>, list': seq<int>, was: seq<int>, k: nat, needToAdd: bool, other: bool)
    requires ForcedTo(list, was, k, needToAdd) && |list'| == |list| >= 2 * k + 2
    requires var p := (list[2 * k], list[2 * k + 1]);
             other == IsOther(p) && list' == list[..2 * k] + [Force(p).0, Force(p).1] + list[2 * k + 2..]
    ensures ForcedTo(list', was, k + 1, needToAdd && other)
  {
    PairsStep(was, k);
    assert list[2 * k] == list[2 * k..][0] && list[2 * k + 1] == list[2 * k..][1];
    assert list[2 * k + 2..] == list[2 * k..][2..] == was[2 * k + 2..];
  }

  lemma Guard(list: seq<int>, was: seq<int>, k: nat, needToAdd: bool, n: nat)
    requires ForcedTo(list, was, k, needToAdd) && Terminated(was, n) && k <= n && 2 * k < |list|
    ensures list[2 * k] == EGL_NONE <==> k == n
    ensures k < n ==> 2 * k + 2 < |list|
  {
    assert list[2 * k] == list[2 * k..][0] == was[2 * k];
    assert Ends(was, k) <==> list[2 * k] == EGL_NONE;
  }

  /** Replaces surface types in place and says whether one was found; `n` pairs precede the terminator. */
  method ForceInPlace(attribs: array<int>, ghost n: nat) returns (attribCnt: nat, needToAdd: bool)
    requires Terminated(attribs[..], n)
    modifies attribs
    ensures attribCnt == 2 * n && ForcedTo(attribs[..], old(attribs[..]), n, needToAdd)
  {
    needToAdd, attribCnt := true, 0;
    ghost var was, k := attribs[..], 0;
    while attribs[attribCnt] != EGL_NONE
      invariant k <= n && attribCnt == 2 * k < attribs.Length
      invariant ForcedTo(attribs[..], was, k, needToAdd)
      decreases n - k
    {
      Guard(attribs[..], was, k, needToAdd, n);
      ghost var list := attribs[..];
      var other := ForcePair(attribs, attribCnt);
      ForcedNext(list, attribs[..], was, k, needToAdd, other);
      needToAdd := needToAdd && other;
      attribCnt := attribCnt + 2;
      k := k + 1;
    }
    Guard(attribs[..], was, k, needToAdd, n);
  }

  /** The loop body on the pair at `at`. */
  method ForcePair(attribs: array<int>, at: nat) returns (other: bool)
    requires at + 1 < attribs.Length
    modifies attribs
    ensures var p := (old(attribs[at]), old(attribs[at + 1]));
            other == IsOther(p) && attribs[..] == old(attribs[..at]) + [Force(p).0, Force(p).1] + old(attribs[at + 2..])
  {
    other := true;
    if attribs[at] == EGL_SURFACE_TYPE {
      attribs[at + 1] := EGL_PBUFFER_BIT;
      other := false;
    }
  }

  lemma RewrittenList(pairs: seq<(int, int)>, needToAdd: bool)
    requires needToAdd <==> AllOther(pairs)
    ensures var added := if needToAdd then [EGL_SURFACE_TYPE, EGL_PBUFFER_BIT] else [];
            Flat(Rewritten(pairs)) == added + Flat(ForceAll(pairs))
  {
    ForceAllLaws(pairs);
    FlatCons((EGL_SURFACE_TYPE, EGL_PBUFFER_BIT), pairs);
  }

  /** The rebuilt list is the rewritten pairs and a terminator, exactly as long as its allocation. */
  method RewriteAttribs(attribs: array?<int>, ghost n: nat) returns (newAttribs: array<int>)
    requires attribs == null ==> n == 0
    requires attribs != null ==> Terminated(attribs[..], n)
    modifies attribs
    ensures fresh(newAttribs)
    ensures newAttribs[..] == Flat(Rewritten(if attribs == null then [] else Pairs(old(attribs[..]), n))) + [EGL_NONE]
  {
    if attribs == null {
      RewrittenList([], true);
      newAttribs := CopyAttribs([], true);
    } else {
      ghost var was := attribs[..];
      var attribCnt, needToAdd := ForceInPlace(attribs, n);
      RewrittenList(Pairs(was, n), needToAdd);
      assert attribs[..attribCnt] == attribs[..][..2 * n];
      newAttribs := CopyAttribs(attribs[..attribCnt], needToAdd);
    }
  }

  method CopyAttribs(attribs: seq<int>, needToAdd: bool) returns (newAttribs: array<int>)
    ensures fresh(newAttribs)
    ensures newAttribs[..] == (if needToAdd then [EGL_SURFACE_TYPE, EGL_PBUFFER_BIT] else []) + attribs + [EGL_NONE]
  {
    newAttribs := new int[|attribs| + 1 + if needToAdd then 2 else 0](_ => 0);
    var at := 0;
    if needToAdd {
      newAttribs[0], newAttribs[1] := EGL_SURFACE_TYPE, EGL_PBUFFER_BIT;
      at := 2;
    }
    forall i | 0 <= i < |attribs| {
      newAttribs[at + i] := attribs[i];
    }
    at := at + |attribs|;
    newAttribs[at] := EGL_NONE;
  }

  lemma {:induction false} FlatCons(p: (int, int), pairs: seq<(int, int)>)
    ensures Flat([p] + pairs) == [p.0, p.1] + Flat(pairs)
  {
    if pairs != [] {
      var front := pairs[..|pairs| - 1];
      assert ([p] + pairs)[..|pairs|] == [p] + front;
      FlatCons(p, front);
    }
  }
}
