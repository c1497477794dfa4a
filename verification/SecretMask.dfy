/**
 Masking of inline secrets (src/docker_adopt/redact.rs): two scanners find secret
 ranges, a merge makes them disjoint, a splice replaces exactly them.
 */
module SecretMask {
  import opened Wrappers
  import opened Text
  import opened StableSort

  /** A half-open range of positions. */
  datatype Range = Range(start: nat, end: nat)

  predicate At(v: string, p: nat, pattern: string) {
    p + |pattern| <= |v| && v[p..p + |pattern|] == pattern
  }

  /** The first occurrence of `pattern` at or after `from`, if any. */
  function FindFrom(v: string, from: nat, pattern: string): (p: Option<nat>)
    requires from <= |v|
    ensures p.Some? ==> from <= p.value <= p.value + |pattern| <= |v| && At(v, p.value, pattern)
    ensures p.Some? ==> forall q | from <= q < p.value :: !At(v, q, pattern)
    ensures p.None? ==> forall q | from <= q :: !At(v, q, pattern)
    decreases |v| - from
  {
    if At(v, from, pattern) then Some(from)
    else if from == |v| then None
    else FindFrom(v, from + 1, pattern)
  }

  /** The first position at or after `from` whose character satisfies `stop`, or the end. */
  function ScanTo(v: string, from: nat, stop: char -> bool): (e: nat)
    requires from <= |v|
    ensures from <= e <= |v|
    ensures forall i | from <= i < e :: !stop(v[i])
    ensures e < |v| ==> stop(v[e])
    decreases |v| - from
  {
    if from == |v| || stop(v[from]) then from else ScanTo(v, from + 1, stop)
  }

  // ---- URL passwords ---------------------------------------------------------------

  predicate EndsAuthority(c: char) {
    c == '/' || c == '?' || c == '#' || IsSpace(c)
  }

  function AuthorityEnd(v: string, start: nat): (e: nat)
    requires start <= |v|
    ensures start <= e <= |v|
    ensures forall i | start <= i < e :: !EndsAuthority(v[i])
    ensures e < |v| ==> EndsAuthority(v[e])
  {
    ScanTo(v, start, EndsAuthority)
  }

  /** The last `c` in `v[lo..hi]`. */
  function FindLast(v: string, lo: nat, hi: nat, c: char): (p: Option<nat>)
    requires lo <= hi <= |v|
    ensures p.Some? ==> lo <= p.value < hi && v[p.value] == c && forall i | p.value < i < hi :: v[i] != c
    ensures p.None? ==> forall i | lo <= i < hi :: v[i] != c
    decreases hi - lo
  {
    if lo == hi then None
    else if v[hi - 1] == c then Some(hi - 1)
    else FindLast(v, lo, hi - 1, c)
  }

  /** The first `c` in `v[lo..hi]`. */
  function FindFirst(v: string, lo: nat, hi: nat, c: char): (p: Option<nat>)
    requires lo <= hi <= |v|
    ensures p.Some? ==> lo <= p.value < hi && v[p.value] == c && forall i | lo <= i < p.value :: v[i] != c
    ensures p.None? ==> forall i | lo <= i < hi :: v[i] != c
    decreases hi - lo
  {
    if lo == hi then None
    else if v[lo] == c then Some(lo)
    else FindFirst(v, lo + 1, hi, c)
  }

  /** The password in the authority `v[start..end]`: from the first `:` to the last `@`. */
  function PasswordIn(v: string, start: nat, end: nat): seq<Range>
    requires start <= end <= |v|
  {
    match FindLast(v, start, end, '@')
    case None => []
    case Some(at) =>
      match FindFirst(v, start, at, ':')
      case Some(colon) => if colon + 1 < at then [Range(colon + 1, at)] else []
      case None => []
  }

  function UrlRanges(v: string, from: nat): seq<Range>
    requires from <= |v|
    decreases |v| - from
  {
    match FindFrom(v, from, "://")
    case None => []
    case Some(p) =>
      var end := AuthorityEnd(v, p + 3);
      PasswordIn(v, p + 3, end) + UrlRanges(v, end)
  }

  lemma UrlStep(v: string, from: nat)
    requires from <= |v| && FindFrom(v, from, "://").Some?
    ensures var start := FindFrom(v, from, "://").value + 3;
            UrlRanges(v, from) == PasswordIn(v, start, AuthorityEnd(v, start)) + UrlRanges(v, AuthorityEnd(v, start))
  {}

  lemma UrlDone(v: string, from: nat)
    requires from <= |v| && FindFrom(v, from, "://").None?
    ensures UrlRanges(v, from) == []
  {}

  method UrlPasswordRanges(v: string) returns (out: seq<Range>)
    ensures out == UrlRanges(v, 0)
  {
    hide FindFrom, At, UrlRanges, AuthorityEnd, FindLast, FindFirst;
    out := [];
    var from := 0;
    ghost var goal := UrlRanges(v, 0);
    while FindFrom(v, from, "://").Some?
      invariant from <= |v|
      invariant out + UrlRanges(v, from) == goal
      decreases |v| - from
    {
      var start := FindFrom(v, from, "://").value + 3;
      var end := AuthorityEnd(v, start);
      var found: seq<Range> := [];
      var at := FindLast(v, start, end, '@');
      if at.Some? {
        var colon := FindFirst(v, start, at.value, ':');
        if colon.Some? && colon.value + 1 < at.value {
          found := [Range(colon.value + 1, at.value)];
        }
      }
      UrlStep(v, from);
      Assoc(out, found, UrlRanges(v, end));
      out := out + found;
      from := end;
    }
    UrlDone(v, from);
    assert out + [] == out;
  }

  // ---- Key-value passwords ----------------------------------------------------------

  predicate EndsValue(c: char) {
    c == ';' || IsSpace(c)
  }

  function ValueEnd(v: string, start: nat): (e: nat)
    requires start <= |v|
    ensures start <= e <= |v|
    ensures forall i | start <= i < e :: !EndsValue(v[i])
    ensures e < |v| ==> EndsValue(v[e])
  {
    ScanTo(v, start, EndsValue)
  }

  function KeyRanges(v: string, key: string, from: nat): seq<Range>
    requires from <= |v| && key != ""
    decreases |v| - from
  {
    match FindFrom(Lower(v), from, key)
    case None => []
    case Some(p) =>
      var start := p + |key|;
      (if ValueEnd(v, start) > start then [Range(start, ValueEnd(v, start))] else [])
      + KeyRanges(v, key, start)
  }

  function KvRanges(v: string): seq<Range> {
    KeyRanges(v, "password=", 0) + KeyRanges(v, "pwd=", 0)
  }

  lemma KeyStep(v: string, key: string, from: nat)
    requires from <= |v| && key != "" && FindFrom(Lower(v), from, key).Some?
    ensures var start := FindFrom(Lower(v), from, key).value + |key|;
            KeyRanges(v, key, from)
              == (if ValueEnd(v, start) > start then [Range(start, ValueEnd(v, start))] else [])
                 + KeyRanges(v, key, start)
  {}

  lemma KeyDone(v: string, key: string, from: nat)
    requires from <= |v| && key != "" && FindFrom(Lower(v), from, key).None?
    ensures KeyRanges(v, key, from) == []
  {}

  method KeyPasswordRanges(v: string, key: string) returns (out: seq<Range>)
    requires key != ""
    ensures out == KeyRanges(v, key, 0)
  {
    hide FindFrom, At, KeyRanges, ValueEnd, Lower;
    var lower := Lower(v);
    out := [];
    var from := 0;
    ghost var goal := KeyRanges(v, key, 0);
    while FindFrom(lower, from, key).Some?
      invariant from <= |v|
      invariant out + KeyRanges(v, key, from) == goal
      decreases |v| - from
    {
      var start := FindFrom(lower, from, key).value + |key|;
      var len := ValueEnd(v, start) - start;
      var found := if len > 0 then [Range(start, start + len)] else [];
      KeyStep(v, key, from);
      Assoc(out, found, KeyRanges(v, key, start));
      out := out + found;
      from := start;
    }
    KeyDone(v, key, from);
    assert out + [] == out;
  }

  method KvPasswordRanges(v: string) returns (out: seq<Range>)
    ensures out == KvRanges(v)
  {
    out := KeyPasswordRanges(v, "password=");
    var more := KeyPasswordRanges(v, "pwd=");
    out := out + more;
  }

  // ---- Merging ---------------------------------------------------------------------------

  predicate Covers(rs: seq<Range>, pos: nat) {
    exists r | r in rs :: r.start <= pos < r.end
  }

  predicate ProperIn(rs: seq<Range>, n: nat) {
    forall r | r in rs :: r.start < r.end <= n
  }

  /** In order, not overlapping and not even touching. */
  ghost predicate Separated(rs: seq<Range>) {
    forall i, j | 0 <= i < j < |rs| :: rs[i].end < rs[j].start
  }

  function Max(a: nat, b: nat): nat {
    if a < b then b else a
  }

  function StartOf(r: Range): int {
    r.start
  }

  lemma CoversSplit(a: seq<Range>, b: seq<Range>, pos: nat)
    ensures Covers(a + b, pos) <==> Covers(a, pos) || Covers(b, pos)
  {
    assert forall r :: r in a + b <==> r in a || r in b;
  }

  lemma CoversOne(rs: seq<Range>, r: Range, pos: nat)
    ensures Covers(rs + [r], pos) <==> Covers(rs, pos) || r.start <= pos < r.end
  {
    CoversSplit(rs, [r], pos);
    assert r in [r];
  }

  /** Widening the last range to take in `r` covers exactly `r` more. */
  lemma WidenCovers(out: seq<Range>, r: Range, pos: nat)
    requires out != [] && out[|out| - 1].start <= r.start <= out[|out| - 1].end
    ensures var last := out[|out| - 1];
            Covers(out[|out| - 1 := Range(last.start, Max(last.end, r.end))], pos) <==>
              Covers(out, pos) || r.start <= pos < r.end
  {
    var last := out[|out| - 1];
    var init, wide := out[..|out| - 1], Range(last.start, Max(last.end, r.end));
    assert out == init + [last] && out[|out| - 1 := wide] == init + [wide];
    CoversOne(init, last, pos);
    CoversOne(init, wide, pos);
  }

  /** The merge loop: a range that starts inside or next to the last one extends it. */
  method Merge(all: seq<Range>, n: nat) returns (out: seq<Range>)
    requires SortedBy(all, StartOf) && ProperIn(all, n)
    ensures ProperIn(out, n) && Separated(out)
    ensures forall pos: nat :: Covers(out, pos) <==> Covers(all, pos)
  {
    out := [];
    for i := 0 to |all|
      invariant ProperIn(out, n) && Separated(out)
      invariant out != [] && i < |all| ==> out[|out| - 1].start <= all[i].start
      invariant forall pos: nat :: Covers(out, pos) <==> Covers(all[..i], pos)
    {
      hide Covers;
      var r := all[i];
      assert all[..i + 1] == all[..i] + [r] && r in all;
      assert i + 1 < |all| ==> StartOf(all[i]) <= StartOf(all[i + 1]);
      if out != [] && r.start <= out[|out| - 1].end {
        var last := out[|out| - 1];
        var widened := out[|out| - 1 := Range(last.start, Max(last.end, r.end))];
        forall pos: nat ensures Covers(widened, pos) <==> Covers(all[..i + 1], pos) {
          WidenCovers(out, r, pos);
          CoversOne(all[..i], r, pos);
        }
        assert last in out;
        out := widened;
      } else {
        forall pos: nat ensures Covers(out + [r], pos) <==> Covers(all[..i + 1], pos) {
          CoversOne(out, r, pos);
          CoversOne(all[..i], r, pos);
        }
        out := out + [r];
      }
    }
    assert all[..|all|] == all;
  }

  // ---- The secret ranges and the splice -----------------------------------------------

  /** What the secret ranges of `v` are: every URL or key-value password, and nothing else. */
  ghost predicate AreSecretRanges(v: string, rs: seq<Range>) {
    && ProperIn(rs, |v|) && Separated(rs)
    && forall pos: nat :: Covers(rs, pos) <==> Covers(UrlRanges(v, 0), pos) || Covers(KvRanges(v), pos)
  }

  lemma {:induction false} PasswordInProper(v: string, start: nat, end: nat)
    requires start <= end <= |v|
    ensures forall r | r in PasswordIn(v, start, end) :: start < r.start < r.end < end
  {}

  lemma {:induction false} UrlRangesProper(v: string, from: nat)
    requires from <= |v|
    ensures ProperIn(UrlRanges(v, from), |v|)
    decreases |v| - from
  {
    hide FindFrom, At, AuthorityEnd;
    match FindFrom(v, from, "://")
    case None =>
    case Some(p) =>
      var end := AuthorityEnd(v, p + 3);
      PasswordInProper(v, p + 3, end);
      UrlRangesProper(v, end);
  }

  lemma {:induction false} KeyRangesProper(v: string, key: string, from: nat)
    requires from <= |v| && key != ""
    ensures ProperIn(KeyRanges(v, key, from), |v|)
    decreases |v| - from
  {
    hide FindFrom, At, ValueEnd, Lower;
    match FindFrom(Lower(v), from, key)
    case None =>
    case Some(p) => KeyRangesProper(v, key, p + |key|);
  }

  /** What both scanners find, as one ordered list without overlaps. */
  method SecretRanges(v: string) returns (out: seq<Range>)
    ensures AreSecretRanges(v, out)
  {
    var all := UrlPasswordRanges(v);
    var kv := KvPasswordRanges(v);
    UrlRangesProper(v, 0);
    KeyRangesProper(v, "password=", 0);
    KeyRangesProper(v, "pwd=", 0);
    var sorted := SortBy(all + kv, StartOf);
    SortBySorted(all + kv, StartOf);
    SameMembers(all + kv, StartOf);
    out := Merge(sorted, |v|);
    forall pos: nat
      ensures Covers(out, pos) <==> Covers(UrlRanges(v, 0), pos) || Covers(KvRanges(v), pos)
    {
      CoversSplit(all, kv, pos);
      assert Covers(sorted, pos) <==> Covers(all + kv, pos);
    }
  }

  function Masked(v: string, rs: seq<Range>, pos: nat, token: string -> string): string
    requires ProperIn(rs, |v|) && Separated(rs)
    requires pos <= |v| && (rs != [] ==> pos <= rs[0].start)
    decreases |rs|
  {
    if rs == [] then v[pos..]
    else
      assert rs[0] in rs;
      v[pos..rs[0].start] + token(v[rs[0].start..rs[0].end]) + Masked(v, rs[1..], rs[0].end, token)
  }

  /** The splice: everything between the ranges is copied, each range becomes its token. */
  method MaskInline(v: string, token: string -> string) returns (out: string)
    ensures exists rs :: AreSecretRanges(v, rs) && out == Masked(v, rs, 0, token)
  {
    var ranges := SecretRanges(v);
    out := "";
    var pos: nat := 0;
    for i := 0 to |ranges|
      invariant pos <= |v| && (i < |ranges| ==> pos <= ranges[i].start)
      invariant out + Masked(v, ranges[i..], pos, token) == Masked(v, ranges, 0, token)
    {
      var r := ranges[i];
      assert r in ranges && ranges[i..][0] == r && ranges[i..][1..] == ranges[i + 1..];
      var piece := v[pos..r.start] + token(v[r.start..r.end]);
      Assoc(out, piece, Masked(v, ranges[i + 1..], r.end, token));
      out := out + piece;
      pos := r.end;
    }
    out := out + v[pos..];
  }
}
