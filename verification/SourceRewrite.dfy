/**
 Rewriting sources (crates/compilers/crates/compilers/src/lib.rs): replacing ranges of a
 text in place with a running offset, and making a path relative to a base.
 */
module SourceRewrite {

  // ---------- Splicing ----------

  type Text = seq<char>

  /** Replace `start..end` of the original by `value`. */
  datatype Update = Update(start: nat, end: nat, value: Text)

  /** Sorted, not overlapping, and within the part of the source that begins at `from`. */
  predicate Fits(source: Text, updates: seq<Update>, from: nat)
    decreases |updates|
  {
    if updates == [] then from <= |source|
    else from <= updates[0].start <= updates[0].end && Fits(source, updates[1..], updates[0].end)
  }

  /** `String::replace_range`, which panics out of range. */
  function ReplaceRange(s: Text, start: nat, end: nat, value: Text): Text
    requires start <= end <= |s|
  {
    s[..start] + value + s[end..]
  }

  /** The untouched gaps of the source from `from` on, interleaved with the replacements. */
  function Interleave(source: Text, updates: seq<Update>, from: nat): Text
    requires Fits(source, updates, from)
    decreases |updates|
  {
    if updates == [] then source[from..]
    else
      FitsInBounds(source, updates, from);
      source[from..updates[0].start] + updates[0].value + Interleave(source, updates[1..], updates[0].end)
  }

  lemma {:induction false} FitsInBounds(source: Text, updates: seq<Update>, from: nat)
    requires Fits(source, updates, from)
    ensures from <= |source|
    ensures forall i :: 0 <= i < |updates| ==> from <= updates[i].start <= updates[i].end <= |source|
    decreases |updates|
  {
    if updates != [] {
      FitsInBounds(source, updates[1..], updates[0].end);
      forall i | 0 <= i < |updates| ensures from <= updates[i].start <= updates[i].end <= |source| {
        if i > 0 { assert updates[i] == updates[1..][i - 1]; }
      }
    }
  }

  lemma {:induction false} FitsSuffix(source: Text, updates: seq<Update>, from: nat, i: nat)
    requires Fits(source, updates, from) && i <= |updates|
    ensures Fits(source, updates[i..], if i == 0 then from else updates[i - 1].end)
    decreases i
  {
    if i == 0 {
      assert updates[0..] == updates;
    } else {
      FitsSuffix(source, updates[1..], updates[0].end, i - 1);
      assert updates[1..][i - 1..] == updates[i..];
    }
  }

  /** The rest of the text after an already rewritten prefix, for some running offset. */
  predicate Shifted(content: Text, source: Text, from: nat, offset: int) {
    && from <= |source| && 0 <= from + offset <= |content|
    && content[from + offset..] == source[from..]
  }

  /** One replacement at the shifted range rewrites one more gap and keeps the rest shifted. */
  lemma ReplaceShifted(content: Text, source: Text, u: Update, from: nat, offset: int)
    requires Shifted(content, source, from, offset) && from <= u.start <= u.end <= |source|
    ensures 0 <= u.start + offset <= u.end + offset <= |content|
    ensures var next := ReplaceRange(content, u.start + offset, u.end + offset, u.value);
            var offset' := offset + |u.value| - (u.end - u.start);
            && Shifted(next, source, u.end, offset')
            && next[..u.end + offset'] == content[..from + offset] + source[from..u.start] + u.value
  {
    var p, k, m := from + offset, u.start - from, u.end - from;
    Split(content, p, k);
    Split(content, p, m);
    Split(source, from, k);
    Split(source, from, m);
    var prefix := content[..p] + source[from..u.start] + u.value;
    var next := ReplaceRange(content, p + k, p + m, u.value);
    assert next == prefix + source[u.end..];
    assert |prefix| == u.end + (offset + |u.value| - (u.end - u.start));
    assert next[..|prefix|] == prefix && next[|prefix|..] == source[u.end..];
  }

  /** A position counted from another one. */
  lemma Split(s: Text, p: nat, k: nat)
    requires p + k <= |s|
    ensures s[..p + k] == s[..p] + s[p..][..k] && s[p..][..k] == s[p..p + k] && s[p + k..] == s[p..][k..]
  {
  }

  /**
   The in-place splice: a running offset follows the changing length. For updates that are
   sorted, do not overlap and are in bounds, every shifted range stays in bounds and the
   result interleaves the gaps of the original with the replacements.
   */
  method ReplaceSourceContent(source: Text, updates: seq<Update>) returns (content: Text)
    requires Fits(source, updates, 0)
    ensures content == Interleave(source, updates, 0)
  {
    hide *;
    var offset: int := 0;
    content := source;
    ghost var from: nat := 0;
    NothingRewritten(source, updates);
    for i := 0 to |updates|
      invariant Rewriting(content, source, updates, i, from, offset)
    {
      var u := updates[i];
      var length: int := |u.value|;
      RewriteNext(content, source, updates, i, from, offset);
      content := ReplaceRange(content, u.start + offset, u.end + offset, u.value);
      offset := offset + length - (u.end - u.start);
      from := u.end;
    }
    AllRewritten(content, source, updates, from, offset);
  }

  /** With `i` updates made, up to `from` in the source, the rest is shifted by `offset` and still to be interleaved. */
  predicate Rewriting(content: Text, source: Text, updates: seq<Update>, i: nat, from: nat, offset: int)
    requires Fits(source, updates, 0)
  {
    && i <= |updates| && Shifted(content, source, from, offset) && Fits(source, updates[i..], from)
    && content[..from + offset] + Interleave(source, updates[i..], from) == Interleave(source, updates, 0)
  }

  lemma NothingRewritten(source: Text, updates: seq<Update>)
    requires Fits(source, updates, 0)
    ensures Rewriting(source, source, updates, 0, 0, 0)
  {
    assert updates[0..] == updates && source[..0] == [];
    hide Interleave, Fits;
  }

  /** Without updates left, what is still unread closes the text. */
  lemma AllRewritten(content: Text, source: Text, updates: seq<Update>, from: nat, offset: int)
    requires Fits(source, updates, 0) && Rewriting(content, source, updates, |updates|, from, offset)
    ensures content == Interleave(source, updates, 0)
  {
    assert updates[|updates|..] == [];
    assert Interleave(source, [], from) == source[from..];
    hide Interleave, Fits;
  }

  /** One turn of the loop. */
  lemma RewriteNext(content: Text, source: Text, updates: seq<Update>, i: nat, from: nat, offset: int)
    requires Fits(source, updates, 0) && i < |updates| && Rewriting(content, source, updates, i, from, offset)
    ensures var u := updates[i];
            && u.start <= u.end && 0 <= u.start + offset <= u.end + offset <= |content|
            && Rewriting(ReplaceRange(content, u.start + offset, u.end + offset, u.value), source, updates, i + 1,
                         u.end, offset + |u.value| - (u.end - u.start))
  {
    var u := updates[i];
    assert updates[i..][0] == u && updates[i..][1..] == updates[i + 1..];
    assert Interleave(source, updates[i..], from) ==
           source[from..u.start] + u.value + Interleave(source, updates[i + 1..], u.end)
      by { FitsInBounds(source, updates[i..], from); }
    FitsInBounds(source, updates[i..], from);
    assert Fits(source, updates[i + 1..], u.end);
    ReplaceShifted(content, source, u, from, offset);
    var more := Interleave(source, updates[i + 1..], u.end);
    hide Interleave, ReplaceRange, Fits;
    Regroup(content[..from + offset], source[from..u.start], u.value, more);
  }

  lemma Regroup(a: Text, b: Text, c: Text, d: Text)
    ensures a + (b + c + d) == (a + b + c) + d
  {
  }

  /** By how much the first `i` updates lengthen the text before what follows them. */
  function Shift(updates: seq<Update>, i: nat): int
    requires i <= |updates|
  {
    if i == 0 then 0 else Shift(updates, i - 1) + |updates[i - 1].value| - (updates[i - 1].end - updates[i - 1].start)
  }

  lemma {:induction false} ShiftOfRest(updates: seq<Update>, i: nat)
    requires 0 < i <= |updates|
    ensures Shift(updates, i) ==
            |updates[0].value| - (updates[0].end - updates[0].start) + Shift(updates[1..], i - 1)
  {
    if i > 1 { ShiftOfRest(updates, i - 1); }
  }

  function EndBefore(updates: seq<Update>, i: nat, from: nat): nat
    requires i <= |updates|
  {
    if i == 0 then from else updates[i - 1].end
  }

  /** Read at `at`, `text` says `part`. */
  predicate Says(text: Text, at: int, part: Text) {
    0 <= at && at + |part| <= |text| && text[at..at + |part|] == part
  }

  lemma SaysLater(head: Text, text: Text, at: int, part: Text)
    requires Says(text, at, part)
    ensures Says(head + text, |head| + at, part)
  {
    assert (head + text)[|head| + at..|head| + at + |part|] == text[at..at + |part|];
  }

  lemma SaysParts(a: Text, b: Text, c: Text)
    ensures Says(a + b + c, 0, a) && Says(a + b + c, |a|, b)
  {
    assert (a + b + c)[0..|a|] == a && (a + b + c)[|a|..|a| + |b|] == b;
  }

  /**
   What the rewritten text says: every replacement stands where its range began, shifted by
   what the updates before it added or took away, and before it stands what stood there.
   */
  lemma {:induction false} SplicedAt(source: Text, updates: seq<Update>, from: nat, i: nat)
    requires Fits(source, updates, from) && i < |updates|
    ensures EndBefore(updates, i, from) <= updates[i].start <= updates[i].end <= |source|
    ensures var text, shift := Interleave(source, updates, from), Shift(updates, i) - from;
            && Says(text, updates[i].start + shift, updates[i].value)
            && Says(text, EndBefore(updates, i, from) + shift, source[EndBefore(updates, i, from)..updates[i].start])
    decreases |updates|
  {
    hide *;
    FitsInBounds(source, updates, from);
    FitsRest(source, updates, from);
    EndsOf(updates, i, from);
    var u, rest := updates[0], updates[1..];
    var more := Interleave(source, rest, u.end);
    var gap := source[from..u.start];
    InterleaveFirst(source, updates, from);
    if i == 0 {
      SaysParts(gap, u.value, more);
      NoShift(updates);
    } else {
      SplicedAt(source, rest, u.end, i - 1);
      ShiftOfRest(updates, i);
      var shift, end := Shift(rest, i - 1) - u.end, EndBefore(rest, i - 1, u.end);
      SaysLater(gap + u.value, more, updates[i].start + shift, updates[i].value);
      SaysLater(gap + u.value, more, end + shift, source[end..updates[i].start]);
    }
  }

  lemma NoShift(updates: seq<Update>)
    ensures Shift(updates, 0) == 0
  {
  }

  lemma FitsRest(source: Text, updates: seq<Update>, from: nat)
    requires updates != [] && Fits(source, updates, from)
    ensures from <= updates[0].start <= updates[0].end <= |source| && Fits(source, updates[1..], updates[0].end)
  {
    FitsInBounds(source, updates, from);
  }

  lemma InterleaveFirst(source: Text, updates: seq<Update>, from: nat)
    requires updates != [] && Fits(source, updates, from) && Fits(source, updates[1..], updates[0].end)
    requires from <= updates[0].start <= |source|
    ensures Interleave(source, updates, from) ==
            source[from..updates[0].start] + updates[0].value + Interleave(source, updates[1..], updates[0].end)
  {
  }

  lemma EndsOf(updates: seq<Update>, i: nat, from: nat)
    requires i < |updates|
    ensures i == 0 ==> EndBefore(updates, i, from) == from
    ensures i > 0 ==> updates[1..][i - 1] == updates[i]
    ensures i > 0 ==> EndBefore(updates, i, from) == EndBefore(updates[1..], i - 1, updates[0].end)
  {
  }

  /** After the last replacement stands the rest of the source, to the end. */
  lemma {:induction false} SplicedTail(source: Text, updates: seq<Update>, from: nat)
    requires Fits(source, updates, from)
    ensures var text, end := Interleave(source, updates, from), EndBefore(updates, |updates|, from);
            && end <= |source| && |text| == |source| + Shift(updates, |updates|) - from
            && Says(text, end + Shift(updates, |updates|) - from, source[end..])
    decreases |updates|
  {
    hide *;
    if updates == [] {
      TailAlone(source, from);
    } else {
      FitsRest(source, updates, from);
      var u, rest := updates[0], updates[1..];
      var more := Interleave(source, rest, u.end);
      InterleaveFirst(source, updates, from);
      SplicedTail(source, rest, u.end);
      ShiftOfRest(updates, |updates|);
      LastEnd(updates, from);
      var end := EndBefore(rest, |rest|, u.end);
      SaysLater(source[from..u.start] + u.value, more, end + Shift(rest, |rest|) - u.end, source[end..]);
    }
  }

  lemma TailAlone(source: Text, from: nat)
    requires Fits(source, [], from)
    ensures from <= |source| && EndBefore([], 0, from) == from && Shift([], 0) == 0
    ensures |Interleave(source, [], from)| == |source| - from && Says(Interleave(source, [], from), 0, source[from..])
  {
  }

  lemma LastEnd(updates: seq<Update>, from: nat)
    requires updates != []
    ensures EndBefore(updates, |updates|, from) == EndBefore(updates[1..], |updates| - 1, updates[0].end)
  {
  }

  /** Applying the updates one by one from the last to the first, each at its own range. */
  function RightToLeft(source: Text, updates: seq<Update>): (r: Text)
    requires Fits(source, updates, 0)
    decreases |updates|
  {
    if updates == [] then source
    else
      FitsInit(source, updates, 0);
      FitsInBounds(source, updates, 0);
      RightToLeftFits(source, updates);
      var u := updates[|updates| - 1];
      RightToLeft(ReplaceRange(source, u.start, u.end, u.value), updates[..|updates| - 1])
  }

  lemma {:induction false} FitsInit(source: Text, updates: seq<Update>, from: nat)
    requires Fits(source, updates, from) && updates != []
    ensures updates[|updates| - 1].start <= |source|
    ensures Fits(source[..updates[|updates| - 1].start], updates[..|updates| - 1], from)
    decreases |updates|
  {
    FitsInBounds(source, updates, from);
    if |updates| > 1 {
      FitsInit(source, updates[1..], updates[0].end);
      assert updates[..|updates| - 1][1..] == updates[1..][..|updates| - 2];
    }
  }

  /** A longer text admits the same updates. */
  lemma {:induction false} FitsLonger(source: Text, longer: Text, updates: seq<Update>, from: nat)
    requires Fits(source, updates, from) && source <= longer
    ensures Fits(longer, updates, from)
    decreases |updates|
  {
    if updates != [] { FitsLonger(source, longer, updates[1..], updates[0].end); }
  }

  lemma RightToLeftFits(source: Text, updates: seq<Update>)
    requires Fits(source, updates, 0) && updates != []
    ensures var u := updates[|updates| - 1];
            && u.start <= u.end <= |source|
            && Fits(ReplaceRange(source, u.start, u.end, u.value), updates[..|updates| - 1], 0)
  {
    var u := updates[|updates| - 1];
    FitsInit(source, updates, 0);
    FitsInBounds(source, updates, 0);
    FitsLonger(source[..u.start], ReplaceRange(source, u.start, u.end, u.value), updates[..|updates| - 1], 0);
  }

  lemma EarlierUntouched(source: Text, u: Update, a: nat, b: nat)
    requires a <= b <= u.start <= u.end <= |source|
    ensures ReplaceRange(source, u.start, u.end, u.value)[a..b] == source[a..b]
  {
  }

  /** The last replacement can be made first, since nothing before it moves. */
  lemma {:induction false} LastFirst(source: Text, updates: seq<Update>, from: nat)
    requires Fits(source, updates, from) && updates != []
    ensures var u := updates[|updates| - 1];
            && u.start <= u.end <= |source|
            && Fits(ReplaceRange(source, u.start, u.end, u.value), updates[..|updates| - 1], from)
            && Interleave(ReplaceRange(source, u.start, u.end, u.value), updates[..|updates| - 1], from) ==
               Interleave(source, updates, from)
    decreases |updates|
  {
    var u := updates[|updates| - 1];
    var init := updates[..|updates| - 1];
    FitsInit(source, updates, from);
    FitsInBounds(source, updates, from);
    var replaced := ReplaceRange(source, u.start, u.end, u.value);
    FitsLonger(source[..u.start], replaced, init, from);
    if |updates| == 1 {
      assert init == [] && updates[1..] == [];
      assert replaced[from..] == source[from..u.start] + u.value + source[u.end..];
    } else {
      LastFirst(source, updates[1..], updates[0].end);
      FitsInBounds(source, updates[1..], updates[0].end);
      assert u == updates[1..][|updates| - 2];
      assert init[1..] == updates[1..][..|updates| - 2];
      EarlierUntouched(source, u, from, updates[0].start);
    }
  }

  /** The running offset is only bookkeeping: the splice equals the updates applied right to left without one. */
  lemma {:induction false} SpliceIsRightToLeft(source: Text, updates: seq<Update>)
    requires Fits(source, updates, 0)
    ensures Interleave(source, updates, 0) == RightToLeft(source, updates)
    decreases |updates|
  {
    if updates == [] {
      assert source[0..] == source;
    } else {
      var u := updates[|updates| - 1];
      LastFirst(source, updates, 0);
      RightToLeftFits(source, updates);
      SpliceIsRightToLeft(ReplaceRange(source, u.start, u.end, u.value), updates[..|updates| - 1]);
    }
  }

  // ---------- Rebasing ----------

  datatype Component = Root | Normal(name: nat) | Parent

  type Path = seq<Component>

  /** `PathBuf::push`: an absolute component starts over. */
  function Push(p: Path, c: Component): Path {
    if c == Root then [Root] else p + [c]
  }

  function PushAll(p: Path, cs: seq<Component>): Path
    decreases |cs|
  {
    if cs == [] then p else PushAll(Push(p, cs[0]), cs[1..])
  }

  /** `Path::join` */
  function JoinPath(base: Path, p: Path): Path {
    PushAll(base, p)
  }

  function Parents(n: nat): Path {
    seq(n, _ => Parent)
  }

  /** How many components `base` and `path` share at the front. */
  function CommonPrefix(base: Path, path: Path): (n: nat)
    ensures n <= |base| && n <= |path| && base[..n] == path[..n]
    ensures n < |base| && n < |path| ==> base[n] != path[n]
    decreases |path|
  {
    if base != [] && path != [] && base[0] == path[0] then
      var n := 1 + CommonPrefix(base[1..], path[1..]);
      assert base[..n] == [base[0]] + base[1..][..n - 1] && path[..n] == [path[0]] + path[1..][..n - 1];
      n
    else 0
  }

  /**
   Drop the common prefix and go up once for each component of the base that is left; a path that
   ends inside the base gives nothing.
   */
  function Rebased(base: Path, path: Path): Path {
    var n := CommonPrefix(base, path);
    if n == |path| then [] else PushAll(Parents(|base| - n), path[n..])
  }

  method RebasePath(base: Path, path: Path) returns (newPath: Path)
    ensures newPath == Rebased(base, path)
  {
    var i := 0;
    newPath := [];
    assert base[0..] == base && path[0..] == path;
    while i < |path|
      invariant 0 <= i <= |path| && (i <= |base| || i == |path|)
      invariant newPath == []
      invariant i <= |base| && CommonPrefix(base, path) == i + CommonPrefix(base[i..], path[i..])
    {
      if i < |base| && path[i] == base[i] {
        assert base[i..][1..] == base[i + 1..] && path[i..][1..] == path[i + 1..];
        i := i + 1;
      } else {
        assert CommonPrefix(base, path) == i;
        var up := if i < |base| then |base| - i else 0;
        newPath := newPath + Parents(up);
        newPath := Push(newPath, path[i]);
        newPath := PushAll(newPath, path[i + 1..]);
        assert path[i..][1..] == path[i + 1..];
        assert [] + Parents(up) == Parents(|base| - i);
        return;
      }
    }
  }

  /** Lexical normalisation: a `..` takes back the normal component before it, and stays at the root. */
  function NormalStep(done: Path, c: Component): Path {
    if c == Parent && done != [] && done[|done| - 1].Normal? then done[..|done| - 1]
    else if c == Parent && done == [Root] then done
    else Push(done, c)
  }

  function NormalFrom(done: Path, cs: seq<Component>): Path
    decreases |cs|
  {
    if cs == [] then done else NormalFrom(NormalStep(done, cs[0]), cs[1..])
  }

  function Normalise(p: Path): Path {
    NormalFrom([], p)
  }

  predicate AllNormal(p: Path) {
    forall i :: 0 <= i < |p| ==> p[i].Normal?
  }

  predicate NoRoot(p: Path) {
    forall i :: 0 <= i < |p| ==> p[i] != Root
  }

  /** At most one root, and only in front. */
  predicate WellFormed(p: Path) {
    NoRoot(if p != [] && p[0] == Root then p[1..] else p)
  }

  predicate Absolute(p: Path) {
    p != [] && p[0] == Root
  }

  /** A base of normal components, below the root or relative. */
  predicate NormalBase(base: Path) {
    AllNormal(if Absolute(base) then base[1..] else base)
  }

  lemma {:induction false} PushAllAppends(p: Path, cs: seq<Component>)
    requires NoRoot(cs)
    ensures PushAll(p, cs) == p + cs
    decreases |cs|
  {
    if cs == [] {
      assert p + cs == p;
    } else {
      PushAllAppends(p + [cs[0]], cs[1..]);
      assert p + [cs[0]] + cs[1..] == p + cs;
    }
  }

  lemma {:induction false} NormalFromConcat(done: Path, a: Path, b: Path)
    ensures NormalFrom(done, a + b) == NormalFrom(NormalFrom(done, a), b)
    decreases |a|
  {
    if a == [] {
      assert a + b == b;
    } else {
      assert (a + b)[1..] == a[1..] + b;
      NormalFromConcat(NormalStep(done, a[0]), a[1..], b);
    }
  }

  /** Normal components are kept as they are. */
  lemma {:induction false} NormalComponentsStay(done: Path, cs: Path)
    requires AllNormal(cs)
    ensures NormalFrom(done, cs) == done + cs
    decreases |cs|
  {
    if cs == [] {
      assert done + cs == done;
    } else {
      NormalComponentsStay(done + [cs[0]], cs[1..]);
      assert done + [cs[0]] + cs[1..] == done + cs;
    }
  }

  /** As many `..` as there are normal components take all of them back. */
  lemma {:induction false} ParentsTakeBack(done: Path, cs: Path)
    requires AllNormal(cs)
    ensures NormalFrom(done + cs, Parents(|cs|)) == done
    decreases |cs|
  {
    if cs == [] {
      assert done + cs == done;
    } else {
      var init := cs[..|cs| - 1];
      assert Parents(|cs|)[1..] == Parents(|init|);
      assert (done + cs)[..|done + cs| - 1] == done + init;
      ParentsTakeBack(done, init);
    }
  }

  lemma BaseNormalises(base: Path)
    requires NormalBase(base)
    ensures Normalise(base) == base
  {
    if Absolute(base) {
      assert base == [Root] + base[1..];
      NormalComponentsStay([Root], base[1..]);
    } else {
      NormalComponentsStay([], base);
    }
  }

  /** Base, then up out of what is not shared, then the rest of the path: that is the path. */
  lemma UpAndDown(common: Path, up: Path, rest: Path)
    requires AllNormal(up) && NoRoot(rest)
    ensures Normalise(common + up + Parents(|up|) + rest) == Normalise(common + rest)
  {
    var a := common + up;
    NormalFromConcat([], a + Parents(|up|), rest);
    NormalFromConcat([], a, Parents(|up|));
    NormalFromConcat([], common, up);
    NormalComponentsStay(Normalise(common), up);
    ParentsTakeBack(Normalise(common), up);
    NormalFromConcat([], common, rest);
  }

  /**
   Rebasing inverts joining: for a base of normal components and a path of the same kind,
   the base joined with the rebased path normalises to what the path normalises to, if and
   only if the path is not a proper prefix of the base.
   */
  lemma RebaseInvertsJoin(base: Path, path: Path)
    requires NormalBase(base) && WellFormed(path) && (Absolute(base) <==> Absolute(path))
    ensures Normalise(JoinPath(base, Rebased(base, path))) == Normalise(path) <==> !(path < base)
  {
    var n := CommonPrefix(base, path);
    if n == |path| {
      PrefixIsLost(base, path);
    } else {
      assert !(path < base);
      DivergingIsKept(base, path, n);
    }
  }

  /** A path that ends inside the base is rebased to nothing. */
  lemma PrefixIsLost(base: Path, path: Path)
    requires NormalBase(base) && (Absolute(base) <==> Absolute(path)) && CommonPrefix(base, path) == |path|
    ensures Normalise(JoinPath(base, Rebased(base, path))) == base && Normalise(path) == path && path <= base
  {
    assert path[..|path|] == path;
    assert JoinPath(base, []) == base;
    BaseNormalises(base);
    PrefixNormalises(base, path);
  }

  lemma DivergingIsKept(base: Path, path: Path, n: nat)
    requires NormalBase(base) && WellFormed(path) && (Absolute(base) <==> Absolute(path))
    requires n == CommonPrefix(base, path) && n < |path|
    ensures Normalise(JoinPath(base, Rebased(base, path))) == Normalise(path)
  {
    hide NormalFrom, NormalStep, PushAll, NoRoot, AllNormal, WellFormed, NormalBase;
    var common, up, rest := path[..n], base[n..], path[n..];
    assert base == common + up && path == common + rest;
    RestHasNoRoot(base, path, n);
    assert Rebased(base, path) == PushAll(Parents(|up|), rest);
    JoinUpAndDown(common, up, rest);
  }

  lemma JoinUpAndDown(common: Path, up: Path, rest: Path)
    requires AllNormal(up) && NoRoot(rest)
    ensures Normalise(JoinPath(common + up, PushAll(Parents(|up|), rest))) == Normalise(common + rest)
  {
    hide NormalFrom, NormalStep, PushAll;
    PushAllAppends(Parents(|up|), rest);
    assert NoRoot(Parents(|up|) + rest);
    PushAllAppends(common + up, Parents(|up|) + rest);
    assert common + up + (Parents(|up|) + rest) == common + up + Parents(|up|) + rest;
    UpAndDown(common, up, rest);
  }

  lemma PrefixNormalises(base: Path, path: Path)
    requires NormalBase(base) && path <= base && (Absolute(base) <==> Absolute(path))
    ensures Normalise(path) == path
  {
    assert NormalBase(path) by {
      assert forall i :: 0 <= i < |path| ==> path[i] == base[i];
      if Absolute(base) { assert forall i :: 0 <= i < |path[1..]| ==> path[1..][i] == base[1..][i]; }
    }
    BaseNormalises(path);
  }

  /** After the common prefix neither side has a root, and the base has only normal components. */
  lemma RestHasNoRoot(base: Path, path: Path, n: nat)
    requires NormalBase(base) && WellFormed(path) && (Absolute(base) <==> Absolute(path))
    requires n == CommonPrefix(base, path) && n < |path|
    ensures NoRoot(path[n..]) && AllNormal(base[n..])
  {
    if Absolute(base) {
      assert n > 0;
      assert forall i :: 0 <= i < |path[n..]| ==> path[n..][i] == path[1..][n - 1 + i];
      assert forall i :: 0 <= i < |base[n..]| ==> base[n..][i] == base[1..][n - 1 + i];
    } else {
      assert path == [] || path[0] != Root;
      assert forall i :: 0 <= i < |path[n..]| ==> path[n..][i] == path[n + i];
      assert forall i :: 0 <= i < |base[n..]| ==> base[n..][i] == base[n + i];
    }
  }

  /** So no two paths of different meaning are rebased to the same one. */
  lemma RebaseIsInjective(base: Path, p: Path, q: Path)
    requires NormalBase(base) && WellFormed(p) && WellFormed(q)
    requires (Absolute(base) <==> Absolute(p)) && (Absolute(base) <==> Absolute(q))
    requires !(p < base) && !(q < base) && Rebased(base, p) == Rebased(base, q)
    ensures Normalise(p) == Normalise(q)
  {
    RebaseInvertsJoin(base, p);
    RebaseInvertsJoin(base, q);
  }
}
