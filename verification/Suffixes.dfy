/** The folder of each migrated volume under `<appdata>/<name>` (src/docker_adopt/orphans.rs). */
module Suffixes {
  import opened Wrappers
  import Text
  import Numerals

  function Stripped(s: string, prefix: string): string {
    Text.StripPrefix(s, prefix).GetOr(s)
  }

  /** The volume's name without the container's and the project's prefix, `data` if nothing is left. */
  function BaseOf(name: string, project: Option<string>, volume: string): (base: string)
    ensures base != ""
  {
    var s := Stripped(Stripped(volume, name + "-"), name + "_");
    var s := if project.Some? then Stripped(Stripped(s, project.value + "-"), project.value + "_") else s;
    if s == "" then "data" else s
  }

  /**
   `s` is what is left of the volume's name when the container's name and then the project's, each
   followed by `-` and then by `_`, are dropped from its front where they are there.
   */
  ghost predicate IsLeft(name: string, project: Option<string>, volume: string, s: string) {
    exists a, b, c, d :: DropsInTurn(name, project, volume, [a, b, c, d], s)
  }

  ghost predicate DropsInTurn(name: string, project: Option<string>, volume: string, drops: seq<string>, s: string)
    requires |drops| == 4
  {
    var (a, b, c, d) := (drops[0], drops[1], drops[2], drops[3]);
    && volume == a + (b + (c + (d + s)))
    && (a == name + "-" || (a == "" && !(name + "-" <= volume)))
    && (b == name + "_" || (b == "" && !(name + "_" <= b + (c + (d + s)))))
    && (if project.Some? then
          && (c == project.value + "-" || (c == "" && !(project.value + "-" <= c + (d + s))))
          && (d == project.value + "_" || (d == "" && !(project.value + "_" <= d + s)))
        else c == "" && d == "")
  }

  lemma StrippedSpelled(s: string, prefix: string) returns (drop: string)
    ensures s == drop + Stripped(s, prefix)
    ensures drop == prefix || (drop == "" && !(prefix <= s))
  {
    drop := if prefix <= s then prefix else "";
  }

  /** The base of a volume's folder is what is left of its name, or `data` if nothing is. */
  lemma BaseSpelled(name: string, project: Option<string>, volume: string) returns (s: string)
    ensures IsLeft(name, project, volume, s) && BaseOf(name, project, volume) == if s == "" then "data" else s
  {
    hide Stripped;
    var a := StrippedSpelled(volume, name + "-");
    var s1 := Stripped(volume, name + "-");
    var b := StrippedSpelled(s1, name + "_");
    var s2 := Stripped(s1, name + "_");
    var c, d := "", "";
    s := s2;
    if project.Some? {
      c := StrippedSpelled(s2, project.value + "-");
      var s3 := Stripped(s2, project.value + "-");
      d := StrippedSpelled(s3, project.value + "_");
      s := Stripped(s3, project.value + "_");
    }
    assert c + (d + s) == s2 && b + s2 == s1;
    assert DropsInTurn(name, project, volume, [a, b, c, d], s);
  }

  /** The `n`th name tried: the base, then `base-2`, `base-3`, … */
  function Candidate(base: string, n: nat): string {
    if n < 2 then base else base + "-" + Numerals.Decimal(n)
  }

  lemma CandidatesApart(base: string, m: nat, n: nat)
    requires 1 <= m < n
    ensures Candidate(base, m) != Candidate(base, n)
  {
    var d := base + "-";
    assert Candidate(base, n)[|d|..] == Numerals.Decimal(n);
    if m >= 2 {
      assert Candidate(base, m)[|d|..] == Numerals.Decimal(m);
      Numerals.DecimalInjective(m, n);
    }
  }

  /** `n` is the first number whose candidate is free. */
  predicate FirstFree(used: set<string>, base: string, n: nat) {
    n >= 1 && Candidate(base, n) !in used && forall k | 1 <= k < n :: Candidate(base, k) in used
  }

  lemma FirstFreeUnique(used: set<string>, base: string, m: nat, n: nat)
    requires FirstFree(used, base, m) && FirstFree(used, base, n)
    ensures m == n
  {}

  /** `got` names each volume by the first candidate none before it took. */
  ghost predicate Assigned(name: string, project: Option<string>, volumes: seq<string>, got: seq<string>) {
    && |got| == |volumes|
    && forall i | 0 <= i < |got| :: IsAssigned(BaseOf(name, project, volumes[i]), got, i)
  }

  ghost predicate IsAssigned(base: string, got: seq<string>, i: nat)
    requires i < |got|
  {
    exists n: nat :: FirstFree(Before(got, i), base, n) && got[i] == Candidate(base, n)
  }

  function Before(got: seq<string>, i: nat): set<string>
    requires i <= |got|
  {
    set s | s in got[..i]
  }

  /**
   `appdata_suffixes`. The inner loop ends because every name it passes over is a
   different one of the finitely many in use.
   */
  method AppdataSuffixes(name: string, project: Option<string>, volumes: seq<string>) returns (out: seq<string>)
    ensures |out| == |volumes| && Assigned(name, project, volumes, out)
  {
    hide BaseOf, Candidate, IsAssigned, FirstFree, Before;
    var used: set<string> := {};
    out := [];
    NothingBefore();
    for v := 0 to |volumes|
      invariant |out| == v && used == Before(out, v)
      invariant forall i | 0 <= i < v :: IsAssigned(BaseOf(name, project, volumes[i]), out, i)
    {
      var base := BaseOf(name, project, volumes[v]);
      var cand, n := base, 2;
      BaseIsFirst(base);
      ghost var passed: set<string> := {};
      while cand in used
        invariant n >= 2 && cand == Candidate(base, n - 1)
        invariant forall k | 1 <= k < n - 1 :: Candidate(base, k) in passed
        invariant forall s | s in passed :: exists k | 1 <= k < n - 1 :: s == Candidate(base, k)
        invariant passed <= used
        decreases used - passed
      {
        NotPassed(base, n, passed);
        passed := passed + {cand};
        cand := Candidate(base, n);
        n := n + 1;
      }
      AllPassedUsed(used, base, n - 1, passed);
      AssignedStays(name, project, volumes, out, cand, v);
      out := out + [cand];
      used := used + {cand};
    }
  }

  lemma NothingBefore()
    ensures Before([], 0) == {}
  {}

  lemma BaseIsFirst(base: string)
    ensures Candidate(base, 1) == base
  {}

  lemma AllPassedUsed(used: set<string>, base: string, n: nat, passed: set<string>)
    requires n >= 1 && Candidate(base, n) !in used && passed <= used
    requires forall k | 1 <= k < n :: Candidate(base, k) in passed
    ensures FirstFree(used, base, n)
  {
    hide Candidate;
  }

  lemma NotPassed(base: string, n: nat, passed: set<string>)
    requires n >= 2 && forall s | s in passed :: exists k | 1 <= k < n - 1 :: s == Candidate(base, k)
    ensures Candidate(base, n - 1) !in passed
  {
    forall k | 1 <= k < n - 1 ensures Candidate(base, k) != Candidate(base, n - 1) {
      CandidatesApart(base, k, n - 1);
    }
  }

  lemma AssignedStays(name: string, project: Option<string>, volumes: seq<string>, out: seq<string>, cand: string,
                      v: nat)
    requires |out| == v < |volumes|
    requires forall i | 0 <= i < v :: IsAssigned(BaseOf(name, project, volumes[i]), out, i)
    requires exists n: nat :: FirstFree(Before(out, v), BaseOf(name, project, volumes[v]), n)
                              && cand == Candidate(BaseOf(name, project, volumes[v]), n)
    ensures forall i | 0 <= i < v + 1 :: IsAssigned(BaseOf(name, project, volumes[i]), out + [cand], i)
    ensures Before(out + [cand], v + 1) == Before(out, v) + {cand}
  {
    hide BaseOf, Candidate, FirstFree;
    assert (out + [cand])[..v + 1] == out[..v] + [cand];
    forall i | 0 <= i < v + 1 ensures IsAssigned(BaseOf(name, project, volumes[i]), out + [cand], i) {
      assert (out + [cand])[..i] == out[..i];
      if i < v { assert IsAssigned(BaseOf(name, project, volumes[i]), out, i); }
    }
  }

  /** Whatever the volumes, the folders are pairwise distinct. */
  lemma SuffixesDistinct(name: string, project: Option<string>, volumes: seq<string>, got: seq<string>, i: nat, j: nat)
    requires Assigned(name, project, volumes, got) && i < j < |got|
    ensures got[i] != got[j]
  {
    hide BaseOf;
    assert IsAssigned(BaseOf(name, project, volumes[j]), got, j);
    assert got[i] == got[..j][i];
  }

  /** The assignment is the only one, and a volume whose base is new keeps it unnumbered. */
  lemma {:induction false} AssignmentUnique(name: string, project: Option<string>, volumes: seq<string>,
                                            a: seq<string>, b: seq<string>, i: nat)
    requires Assigned(name, project, volumes, a) && Assigned(name, project, volumes, b) && i <= |volumes|
    ensures a[..i] == b[..i]
  {
    hide BaseOf, Candidate, FirstFree;
    if i == 0 {
    } else {
      AssignmentUnique(name, project, volumes, a, b, i - 1);
      var base := BaseOf(name, project, volumes[i - 1]);
      assert IsAssigned(base, a, i - 1) && IsAssigned(base, b, i - 1);
      var m: nat :| FirstFree(Before(a, i - 1), base, m) && a[i - 1] == Candidate(base, m);
      var n: nat :| FirstFree(Before(b, i - 1), base, n) && b[i - 1] == Candidate(base, n);
      FirstFreeUnique(Before(a, i - 1), base, m, n);
      assert a[..i] == a[..i - 1] + [a[i - 1]] && b[..i] == b[..i - 1] + [b[i - 1]];
    }
  }
}
