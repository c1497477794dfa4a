/** What the scanners find, and that masking touches nothing else. */
module SecretMaskLaws {
  import opened Wrappers
  import opened Text
  import opened SecretMask

  // ---- The scanners, declaratively ---------------------------------------------------

  /** `r` is the password of the authority that starts at `start`: from the first `:` to the last `@`. */
  ghost predicate IsPasswordAt(v: string, start: nat, r: Range) {
    && start < r.start < r.end < AuthorityEndOr(v, start)
    && v[r.start - 1] == ':' && (forall i | start <= i < r.start - 1 :: v[i] != ':')
    && v[r.end] == '@' && (forall i | r.end < i < AuthorityEndOr(v, start) :: v[i] != '@')
  }

  function AuthorityEndOr(v: string, start: nat): (e: nat)
    ensures e <= |v|
  {
    if start <= |v| then AuthorityEnd(v, start) else 0
  }

  lemma PasswordInExact(v: string, start: nat, r: Range)
    requires start <= |v|
    ensures r in PasswordIn(v, start, AuthorityEnd(v, start)) <==> IsPasswordAt(v, start, r)
  {
    var end := AuthorityEnd(v, start);
    var at := FindLast(v, start, end, '@');
    if at.Some? {
      var colon := FindFirst(v, start, at.value, ':');
      if IsPasswordAt(v, start, r) {
        assert r.end == at.value;
        assert colon.Some? && colon.value == r.start - 1;
      }
    }
  }

  /** Where the URL scanner looks: each `://` not inside an authority already looked at. */
  function UrlStarts(v: string, from: nat): seq<nat>
    requires from <= |v|
    decreases |v| - from
  {
    match FindFrom(v, from, "://")
    case None => []
    case Some(p) => [p + 3] + UrlStarts(v, AuthorityEnd(v, p + 3))
  }

  /** The URL ranges are exactly the passwords of the authorities looked at. */
  lemma {:induction false} UrlRangesExact(v: string, from: nat, r: Range)
    requires from <= |v|
    ensures r in UrlRanges(v, from) <==> exists start :: start in UrlStarts(v, from) && IsPasswordAt(v, start, r)
    decreases |v| - from
  {
    hide FindFrom, At, PasswordIn, IsPasswordAt, UrlRanges, UrlStarts, AuthorityEnd;
    match FindFrom(v, from, "://")
    case None =>
      UrlDone(v, from);
      StartsDone(v, from);
    case Some(p) =>
      UrlStep(v, from);
      StartsStep(v, from);
      PasswordInExact(v, p + 3, r);
      UrlRangesExact(v, AuthorityEnd(v, p + 3), r);
      StartsWith(p + 3, UrlStarts(v, AuthorityEnd(v, p + 3)));
  }

  lemma StartsWith(start: nat, rest: seq<nat>)
    ensures forall s :: s in [start] + rest <==> s == start || s in rest
  {}

  lemma StartsDone(v: string, from: nat)
    requires from <= |v| && FindFrom(v, from, "://").None?
    ensures UrlStarts(v, from) == []
  {}

  lemma StartsStep(v: string, from: nat)
    requires from <= |v| && FindFrom(v, from, "://").Some?
    ensures var start := FindFrom(v, from, "://").value + 3;
            UrlStarts(v, from) == [start] + UrlStarts(v, AuthorityEnd(v, start))
  {}

  /** No `://` is passed over except inside an authority that was looked at. */
  lemma {:induction false} EveryUrlIsLookedAt(v: string, from: nat, p: nat)
    requires from <= p && At(v, p, "://")
    ensures p + 3 in UrlStarts(v, from)
         || exists start :: start in UrlStarts(v, from) && start <= p < AuthorityEndOr(v, start)
    decreases |v| - from
  {
    hide AuthorityEnd;
    var q := FindFrom(v, from, "://");
    assert q.Some? && q.value <= p;
    var start := q.value + 3;
    assert UrlStarts(v, from)[0] == start;
    if p == q.value {
    } else {
      assert v[q.value..q.value + 3] == "://";
      assert v[p..p + 3] == "://";
      UrlsDoNotOverlap(v, q.value, p);
      var rest := UrlStarts(v, AuthorityEnd(v, start));
      assert UrlStarts(v, from) == [start] + rest;
      if p >= AuthorityEnd(v, start) {
        EveryUrlIsLookedAt(v, AuthorityEnd(v, start), p);
        assert forall s | s in rest :: s in UrlStarts(v, from);
      } else {
        assert start in UrlStarts(v, from) && start <= p < AuthorityEndOr(v, start);
      }
    }
  }

  lemma CharAt(v: string, p: nat, pattern: string, i: nat)
    requires At(v, p, pattern) && i < |pattern|
    ensures v[p + i] == pattern[i]
  {
    assert v[p..p + |pattern|][i] == v[p + i];
  }

  lemma UrlsDoNotOverlap(v: string, q: nat, p: nat)
    requires At(v, q, "://") && At(v, p, "://") && q < p
    ensures q + 3 <= p
  {
    hide At;
    if p < q + 3 {
      CharAt(v, q, "://", p - q);
      CharAt(v, p, "://", 0);
    }
  }

  /** A key whose only `=` is its last character, so that it never overlaps itself. */
  predicate EndsInEquals(key: string) {
    key != "" && key[|key| - 1] == '=' && forall i | 0 <= i < |key| - 1 :: key[i] != '='
  }

  lemma KeyDoesNotOverlap(s: string, key: string, p: nat, q: nat)
    requires EndsInEquals(key) && At(s, p, key) && At(s, q, key) && p < q
    ensures p + |key| <= q
  {
    var last := |key| - 1;
    assert s[p + last] == s[p..p + |key|][last] == '=';
    forall j | q <= j < q + last ensures s[j] != '=' {
      assert s[j] == s[q..q + |key|][j - q];
    }
  }

  /** The value after an occurrence of `key` at `p` in the lower-cased text. */
  ghost predicate IsValueAfter(v: string, key: string, p: nat, r: Range) {
    && At(Lower(v), p, key) && r.start == p + |key|
    && r.start < r.end == ValueEndOr(v, r.start)
  }

  function ValueEndOr(v: string, start: nat): nat {
    if start <= |v| then ValueEnd(v, start) else 0
  }

  ghost predicate IsValueFrom(v: string, key: string, from: nat, r: Range) {
    exists p: nat :: from <= p && IsValueAfter(v, key, p, r)
  }

  /** The first occurrence and those behind it are all. */
  lemma FirstAndLater(v: string, key: string, from: nat, p: nat, r: Range)
    requires from <= |v| && EndsInEquals(key) && FindFrom(Lower(v), from, key) == Some(p)
    ensures IsValueFrom(v, key, from, r) <==> IsValueAfter(v, key, p, r) || IsValueFrom(v, key, p + |key|, r)
  {
    hide Lower, ValueEndOr;
    forall q: nat | from <= q && IsValueAfter(v, key, q, r) ensures q == p || p + |key| <= q {
      assert At(Lower(v), q, key);
      if p < q { KeyDoesNotOverlap(Lower(v), key, p, q); }
    }
  }

  /** The key-value ranges are exactly the non-empty values of every occurrence, in any case. */
  lemma {:induction false} KeyRangesExact(v: string, key: string, from: nat, r: Range)
    requires from <= |v| && EndsInEquals(key)
    ensures r in KeyRanges(v, key, from) <==> IsValueFrom(v, key, from, r)
    decreases |v| - from
  {
    hide Lower, ValueEnd, KeyRanges, IsValueFrom;
    match FindFrom(Lower(v), from, key)
    case None => NoRange(v, key, from, r);
    case Some(p) =>
      KeyRangesExact(v, key, p + |key|, r);
      FirstAndLater(v, key, from, p, r);
      FirstRange(v, key, from, p, r);
  }

  lemma NoRange(v: string, key: string, from: nat, r: Range)
    requires from <= |v| && key != "" && FindFrom(Lower(v), from, key) == None
    ensures r !in KeyRanges(v, key, from) && !IsValueFrom(v, key, from, r)
  {
    hide Lower, ValueEnd;
    forall p: nat | from <= p ensures !IsValueAfter(v, key, p, r) {
      assert !At(Lower(v), p, key);
    }
  }

  lemma FirstRange(v: string, key: string, from: nat, p: nat, r: Range)
    requires from <= |v| && key != "" && FindFrom(Lower(v), from, key) == Some(p)
    ensures r in KeyRanges(v, key, from) <==> IsValueAfter(v, key, p, r) || r in KeyRanges(v, key, p + |key|)
  {
    hide *;
    KeyStep(v, key, from);
    var start := p + |key|;
    InOneMore(ValueEnd(v, start) > start, Range(start, ValueEnd(v, start)), KeyRanges(v, key, start), r);
    ValueAfterIs(v, key, p, r);
  }

  lemma InOneMore<T>(c: bool, x: T, rest: seq<T>, r: T)
    ensures r in (if c then [x] else []) + rest <==> (c && r == x) || r in rest
  {}

  lemma ValueAfterIs(v: string, key: string, p: nat, r: Range)
    requires At(Lower(v), p, key) && p + |key| <= |v|
    ensures var (start, end) := (p + |key|, ValueEnd(v, p + |key|));
            IsValueAfter(v, key, p, r) <==> end > start && r == Range(start, end)
  {
    hide Lower, ValueEnd, At;
  }

  lemma KvRangesExact(v: string, r: Range)
    ensures r in KvRanges(v) <==>
              exists p: nat :: IsValueAfter(v, "password=", p, r) || IsValueAfter(v, "pwd=", p, r)
  {
    hide IsValueAfter, KeyRanges;
    KeyRangesExact(v, "password=", 0, r);
    KeyRangesExact(v, "pwd=", 0, r);
  }

  // ---- What is found, spelled out -------------------------------------------------------

  /** The authority at `start` reaches to the first `/`, `?`, `#` or white space, or to the end. */
  ghost predicate AuthorityIs(v: string, start: nat, end: nat) {
    && start <= end <= |v|
    && (forall i | start <= i < end :: v[i] !in "/?#" && v[i] !in WHITE_SPACE)
    && (end < |v| ==> v[end] in "/?#" || v[end] in WHITE_SPACE)
  }

  lemma AuthoritySpelled(v: string, start: nat, end: nat)
    requires start <= |v|
    ensures AuthorityIs(v, start, end) <==> end == AuthorityEnd(v, start)
  {
    forall c: char ensures EndsAuthority(c) <==> c in "/?#" || c in WHITE_SPACE {
      SpaceIsWhite(c);
      assert "/?#"[0] == '/' && "/?#"[1] == '?' && "/?#"[2] == '#';
      hide IsSpace;
    }
    hide EndsAuthority;
  }

  /** A password: in an authority the scan looks at, from its first `:` to its last `@`. */
  ghost predicate IsUrlPassword(v: string, start: nat, end: nat, r: Range) {
    && start in UrlStarts(v, 0) && AuthorityIs(v, start, end)
    && start < r.start < r.end < end
    && v[r.start - 1] == ':' && (forall i | start <= i < r.start - 1 :: v[i] != ':')
    && v[r.end] == '@' && (forall i | r.end < i < end :: v[i] != '@')
  }

  lemma UrlPasswordsSpelled(v: string, r: Range)
    ensures r in UrlRanges(v, 0) <==> exists start, end :: IsUrlPassword(v, start, end, r)
  {
    UrlRangesExact(v, 0, r);
    hide UrlRanges, UrlStarts, AuthorityIs, AuthorityEnd;
    if start :| start in UrlStarts(v, 0) && IsPasswordAt(v, start, r) {
      StartIsUrl(v, 0, start);
      AuthoritySpelled(v, start, AuthorityEnd(v, start));
      assert IsUrlPassword(v, start, AuthorityEnd(v, start), r);
    }
    if start, end :| IsUrlPassword(v, start, end, r) {
      StartIsUrl(v, 0, start);
      AuthoritySpelled(v, start, end);
      assert IsPasswordAt(v, start, r);
    }
  }

  /** The scan looks right after a `://`. */
  lemma {:induction false} StartIsUrl(v: string, from: nat, start: nat)
    requires from <= |v| && start in UrlStarts(v, from)
    ensures 3 <= start <= |v| && StandsAt(v, start - 3, "://")
    decreases |v| - from
  {
    hide AuthorityEnd, UrlStarts;
    if FindFrom(v, from, "://").None? {
      StartsDone(v, from);
    } else {
      StartsStep(v, from);
      var first := FindFrom(v, from, "://").value + 3;
      StartsWith(first, UrlStarts(v, AuthorityEnd(v, first)));
      if start == first {
        forall k | 0 <= k < 3 ensures v[first - 3 + k] == "://"[k] { CharAt(v, first - 3, "://", k); }
      } else {
        StartIsUrl(v, AuthorityEnd(v, first), start);
      }
    }
  }

  /** And it passes over a `://` only inside an authority it looks at. */
  lemma EveryUrlSpelled(v: string, p: nat)
    requires StandsAt(v, p, "://")
    ensures p + 3 in UrlStarts(v, 0)
         || exists start, end :: start in UrlStarts(v, 0) && AuthorityIs(v, start, end) && start <= p < end
  {
    assert At(v, p, "://") by { assert v[p..p + 3] == "://"; }
    EveryUrlIsLookedAt(v, 0, p);
    if p + 3 !in UrlStarts(v, 0) {
      var start :| start in UrlStarts(v, 0) && start <= p < AuthorityEndOr(v, start);
      AuthoritySpelled(v, start, AuthorityEnd(v, start));
    }
  }

  /** A value: after `password=` or `pwd=` in any case, up to the next `;` or white space. */
  ghost predicate IsKeyValue(v: string, key: string, p: nat, r: Range) {
    && key in ["password=", "pwd="] && SpelledAt(v, p, key)
    && r.start == p + |key| && r.start < r.end <= |v|
    && (forall i | r.start <= i < r.end :: v[i] != ';' && v[i] !in WHITE_SPACE)
    && (r.end < |v| ==> v[r.end] == ';' || v[r.end] in WHITE_SPACE)
  }

  lemma KeyValuesSpelled(v: string, r: Range)
    ensures r in KvRanges(v) <==> exists key, p :: IsKeyValue(v, key, p, r)
  {
    KvRangesExact(v, r);
    forall p: nat, key | key in ["password=", "pwd="] ensures IsValueAfter(v, key, p, r) <==> IsKeyValue(v, key, p, r) {
      ValueSpelled(v, key, p, r);
    }
    hide IsValueAfter, KvRanges;
    if p: nat :| IsValueAfter(v, "password=", p, r) || IsValueAfter(v, "pwd=", p, r) {
      assert "password=" in ["password=", "pwd="] && "pwd=" in ["password=", "pwd="];
      assert IsKeyValue(v, "password=", p, r) || IsKeyValue(v, "pwd=", p, r);
    }
    if key, p :| IsKeyValue(v, key, p, r) {
      assert key == "password=" || key == "pwd=";
    }
  }

  lemma ValueSpelled(v: string, key: string, p: nat, r: Range)
    requires key in ["password=", "pwd="]
    ensures IsValueAfter(v, key, p, r) <==> IsKeyValue(v, key, p, r)
  {
    forall c: char ensures EndsValue(c) <==> c == ';' || c in WHITE_SPACE {
      SpaceIsWhite(c);
      hide IsSpace;
    }
    AtStands(Lower(v), p, key);
    SmallKeys(key);
    LowerAt(v, p, key);
    hide EndsValue, At, StandsAt, Lower;
  }

  lemma SmallKeys(key: string)
    requires key in ["password=", "pwd="]
    ensures IsSmall(key)
  {}

  lemma AtStands(v: string, p: nat, part: string)
    ensures At(v, p, part) <==> StandsAt(v, p, part)
  {
    if p + |part| <= |v| {
      var there := v[p..p + |part|];
      assert forall k | 0 <= k < |part| :: there[k] == v[p + k];
      if StandsAt(v, p, part) { assert v[p..p + |part|] == part; }
    }
  }

  // ---- One answer ------------------------------------------------------------------------

  lemma CoversRest(rs: seq<Range>, n: nat, pos: nat)
    requires rs != [] && ProperIn(rs, n) && Separated(rs)
    ensures Covers(rs[1..], pos) <==> Covers(rs, pos) && pos >= rs[0].end
  {
    assert rs == [rs[0]] + rs[1..];
    if Covers(rs[1..], pos) {
      var r :| r in rs[1..] && r.start <= pos < r.end;
      var i :| 0 <= i < |rs[1..]| && rs[1..][i] == r;
      assert rs[i + 1] == r && rs[0].end < rs[i + 1].start;
    }
  }

  lemma FirstBounds(rs: seq<Range>, n: nat)
    requires rs != [] && ProperIn(rs, n) && Separated(rs)
    ensures Covers(rs, rs[0].start) && !Covers(rs, rs[0].end)
    ensures forall pos: nat | rs[0].start <= pos < rs[0].end :: Covers(rs, pos)
    ensures forall pos: nat | pos < rs[0].start :: !Covers(rs, pos)
  {
    assert rs[0] in rs;
    forall r | r in rs ensures r == rs[0] || rs[0].end < r.start {
      var i :| 0 <= i < |rs| && rs[i] == r;
    }
  }

  /** Where two lists cover the same, they begin with the same range. */
  lemma SameFirst(a: seq<Range>, b: seq<Range>, n: nat)
    requires a != [] && ProperIn(a, n) && Separated(a) && ProperIn(b, n) && Separated(b)
    requires forall pos: nat :: Covers(a, pos) <==> Covers(b, pos)
    ensures b != [] && a[0] == b[0]
  {
    FirstBounds(a, n);
    assert a[0] in a;
    NothingCovered(a[0].start);
    assert b != [];
    FirstBounds(b, n);
    assert b[0] in b;
    hide Covers, Separated;
    assert a[0].start == b[0].start;
    assert a[0].end == b[0].end;
  }

  lemma NothingCovered(pos: nat)
    ensures !Covers([], pos)
  {}

  lemma RestIsProper(rs: seq<Range>, n: nat)
    requires rs != [] && ProperIn(rs, n) && Separated(rs)
    ensures ProperIn(rs[1..], n) && Separated(rs[1..])
  {}

  /** Disjoint, separated ranges are determined by what they cover. */
  lemma {:induction false} RangesUnique(a: seq<Range>, b: seq<Range>, n: nat)
    requires ProperIn(a, n) && Separated(a) && ProperIn(b, n) && Separated(b)
    requires forall pos: nat :: Covers(a, pos) <==> Covers(b, pos)
    ensures a == b
    decreases |a|
  {
    hide Covers, Separated, ProperIn;
    if a == [] {
      if b != [] { SameFirst(b, a, n); }
    } else {
      SameFirst(a, b, n);
      forall pos: nat ensures Covers(a[1..], pos) <==> Covers(b[1..], pos) {
        CoversRest(a, n, pos);
        CoversRest(b, n, pos);
      }
      RestIsProper(a, n);
      RestIsProper(b, n);
      RangesUnique(a[1..], b[1..], n);
      assert a == [a[0]] + a[1..] && b == [b[0]] + b[1..];
    }
  }

  /** So the secret ranges, and with them the masked text, leave no choice. */
  lemma SecretRangesUnique(v: string, a: seq<Range>, b: seq<Range>)
    requires AreSecretRanges(v, a) && AreSecretRanges(v, b)
    ensures a == b
  {
    hide Covers, UrlRanges, KvRanges;
    RangesUnique(a, b, |v|);
  }

  // ---- Nothing else changes ------------------------------------------------------------------

  /** `gaps` and `fills` alternating, a gap at either end. */
  function Weave(gaps: seq<string>, fills: seq<string>): string
    requires |gaps| == |fills| + 1
  {
    if fills == [] then gaps[0] else gaps[0] + fills[0] + Weave(gaps[1..], fills[1..])
  }

  function Gaps(v: string, rs: seq<Range>, pos: nat): (g: seq<string>)
    requires ProperIn(rs, |v|) && Separated(rs)
    requires pos <= |v| && (rs != [] ==> pos <= rs[0].start)
    ensures |g| == |rs| + 1
    decreases |rs|
  {
    if rs == [] then [v[pos..]]
    else
      assert rs[0] in rs;
      [v[pos..rs[0].start]] + Gaps(v, rs[1..], rs[0].end)
  }

  function Secrets(v: string, rs: seq<Range>): (s: seq<string>)
    requires ProperIn(rs, |v|)
    ensures |s| == |rs|
    ensures forall i | 0 <= i < |rs| :: rs[i].start < rs[i].end <= |v| && s[i] == v[rs[i].start..rs[i].end]
  {
    seq(|rs|, i requires 0 <= i < |rs| => assert rs[i] in rs; v[rs[i].start..rs[i].end])
  }

  function Tokens(secrets: seq<string>, token: string -> string): (t: seq<string>)
    ensures |t| == |secrets| && forall i | 0 <= i < |t| :: t[i] == token(secrets[i])
  {
    seq(|secrets|, i requires 0 <= i < |secrets| => token(secrets[i]))
  }

  lemma GapsCons(v: string, rs: seq<Range>, pos: nat)
    requires rs != [] && ProperIn(rs, |v|) && Separated(rs) && ProperIn(rs[1..], |v|) && Separated(rs[1..])
    requires pos <= rs[0].start < rs[0].end <= |v| && (rs[1..] != [] ==> rs[0].end <= rs[1..][0].start)
    ensures Gaps(v, rs, pos) == [v[pos..rs[0].start]] + Gaps(v, rs[1..], rs[0].end)
  {}

  lemma SecretsCons(v: string, rs: seq<Range>)
    requires rs != [] && ProperIn(rs, |v|) && ProperIn(rs[1..], |v|) && rs[0].start < rs[0].end <= |v|
    ensures Secrets(v, rs) == [v[rs[0].start..rs[0].end]] + Secrets(v, rs[1..])
  {}

  lemma TokensCons(s: string, secrets: seq<string>, token: string -> string)
    ensures Tokens([s] + secrets, token) == [token(s)] + Tokens(secrets, token)
  {}

  lemma WeaveCons(gap: string, gaps: seq<string>, fill: string, fills: seq<string>)
    requires |gaps| == |fills| + 1
    ensures Weave([gap] + gaps, [fill] + fills) == gap + fill + Weave(gaps, fills)
  {
    assert ([gap] + gaps)[1..] == gaps && ([fill] + fills)[1..] == fills;
  }

  lemma {:induction false} MaskedIsWeave(v: string, rs: seq<Range>, pos: nat, token: string -> string)
    requires ProperIn(rs, |v|) && Separated(rs)
    requires pos <= |v| && (rs != [] ==> pos <= rs[0].start)
    ensures Weave(Gaps(v, rs, pos), Secrets(v, rs)) == v[pos..]
    ensures Weave(Gaps(v, rs, pos), Tokens(Secrets(v, rs), token)) == Masked(v, rs, pos, token)
    decreases |rs|
  {
    if rs == [] {
    } else {
      assert rs[0] in rs;
      RestIsProper(rs, |v|);
      MaskedIsWeave(v, rs[1..], rs[0].end, token);
      hide Weave, Gaps, Secrets, Tokens;
      var (gap, more) := (v[pos..rs[0].start], Gaps(v, rs[1..], rs[0].end));
      GapsCons(v, rs, pos);
      SecretsCons(v, rs);
      TokensCons(v[rs[0].start..rs[0].end], Secrets(v, rs[1..]), token);
      WeaveCons(gap, more, v[rs[0].start..rs[0].end], Secrets(v, rs[1..]));
      WeaveCons(gap, more, token(v[rs[0].start..rs[0].end]), Tokens(Secrets(v, rs[1..]), token));
      assert v[pos..] == v[pos..rs[0].start] + v[rs[0].start..rs[0].end] + v[rs[0].end..];
    }
  }

  /**
   The value and its masked form are the same gaps woven with the secrets and with
   their tokens: exactly the secret ranges are replaced, all else kept in order.
   */
  lemma MaskingReplacesOnlySecrets(v: string, rs: seq<Range>, token: string -> string)
    requires AreSecretRanges(v, rs)
    ensures Weave(Gaps(v, rs, 0), Secrets(v, rs)) == v
    ensures Weave(Gaps(v, rs, 0), Tokens(Secrets(v, rs), token)) == Masked(v, rs, 0, token)
  {
    MaskedIsWeave(v, rs, 0, token);
    assert v[0..] == v;
  }
}
