/** The words of the smb.conf rewriter, of its reader and of a request, spelled out. */
module SmbSpelled {
  import opened Text
  import opened SmbRewrite
  import opened SmbShares
  import opened SmbRequest
  import opened Ordering

  // ---- Access keys -----------------------------------------------------------------------

  predicate SameLetterOrKelvin(c: char, small: char) {
    SameLetter(c, small) || (c == '\U{212A}' && small == 'k')
  }

  /** `key` is `word`, white space, `_` and the case of letters aside. */
  predicate SpellsLoosely(key: string, word: string) {
    if key == "" then word == ""
    else if key[0] in WHITE_SPACE || key[0] == '_' then SpellsLoosely(key[1..], word)
    else word != "" && SameLetterOrKelvin(key[0], word[0]) && SpellsLoosely(key[1..], word[1..])
  }

  lemma {:induction false} NormalizeSpelled(key: string, word: string)
    requires IsSmall(word)
    ensures NormalizeKey(key) == word <==> SpellsLoosely(key, word)
  {
    hide IsSpace, LowerKeyChar, SameLetterOrKelvin;
    if key == "" {
    } else {
      SpaceIsWhite(key[0]);
      if IsSpace(key[0]) || key[0] == '_' {
        NormalizeSpelled(key[1..], word);
      } else if word != "" {
        LowerKeyCharSpelled(key[0], word[0]);
        NormalizeSpelled(key[1..], word[1..]);
        assert word == [word[0]] + word[1..];
      }
    }
  }

  lemma LowerKeyCharSpelled(c: char, small: char)
    requires 'a' <= small <= 'z' || small == '='
    ensures LowerKeyChar(c) == small <==> SameLetterOrKelvin(c, small)
  {}

  /** The words a stale line could contradict the requested mode by. */
  predicate IsAccessWord(word: string) {
    || word == "public" || word == "guestok" || word == "guestonly" || word == "onlyuser"
    || word == "writeable" || word == "writable" || word == "writeok" || word == "readonly"
    || word == "validusers" || word == "invalidusers" || word == "writelist" || word == "readlist"
    || word == "username" || word == "user" || word == "users"
    || word == "adminusers" || word == "forceuser" || word == "forcegroup"
  }

  lemma AccessWordsSmall(word: string)
    requires IsAccessWord(word)
    ensures IsSmall(word)
  {}

  lemma AccessKeySpelled(key: string)
    ensures IsAccessKey(NormalizeKey(key)) <==> exists word :: IsAccessWord(word) && SpellsLoosely(key, word)
  {
    var k := NormalizeKey(key);
    AccessWordsAre(k);
    if IsAccessKey(k) {
      AccessWordsSmall(k);
      NormalizeSpelled(key, k);
    }
    hide IsAccessWord, IsAccessKey, IsSmall;
    if word :| IsAccessWord(word) && SpellsLoosely(key, word) {
      AccessWordsSmall(word);
      NormalizeSpelled(key, word);
    }
  }

  lemma AccessWordsAre(word: string)
    ensures IsAccessKey(word) <==> IsAccessWord(word)
  {}

  /** A line is an access line if what stands before its first `=` spells such a word. */
  lemma AccessLineSpelled(line: string)
    ensures IsAccessLine(line) <==>
              exists i, word | 0 <= i < |Trim(line)| :: IsAccessAt(Trim(line), i, word)
  {
    var t := Trim(line);
    var i := Find(t, '=');
    hide Trim, NormalizeKey, IsAccessKey, SpellsLoosely, IsAccessWord, Find;
    assert forall k | 0 <= k < i :: t[..i][k] == t[k];
    if i < |t| {
      AccessKeySpelled(t[..i]);
      if IsAccessLine(line) {
        var word :| IsAccessWord(word) && SpellsLoosely(t[..i], word);
        assert IsAccessAt(t, i, word);
      }
    }
    if k, word :| 0 <= k < |t| && IsAccessAt(t, k, word) {
      FirstIs(t, k);
      assert i == k;
    }
  }

  lemma FirstIs(t: string, k: nat)
    requires k < |t| && t[k] == '=' && forall j | 0 <= j < k :: t[j] != '='
    ensures Find(t, '=') == k
  {
    FindUnique(t, '=', k);
  }

  ghost predicate IsAccessAt(t: string, i: nat, word: string)
    requires i < |t|
  {
    t[i] == '=' && (forall j | 0 <= j < i :: t[j] != '=') && IsAccessWord(word) && SpellsLoosely(t[..i], word)
  }

  // ---- What the reader obeys ----------------------------------------------------------------

  predicate Spells(v: string, word: string) {
    |v| == |word| && forall k | 0 <= k < |v| :: SameLetter(v[k], word[k])
  }

  predicate SaysYes(v: string) {
    Spells(v, "yes") || Spells(v, "true") || v == "1"
  }

  lemma LowerSpelled(v: string, word: string)
    requires IsSmall(word)
    ensures Lower(v) == word <==> Spells(v, word)
  {
    if |v| == |word| {
      forall k | 0 <= k < |v| ensures Lower(v)[k] == word[k] <==> SameLetter(v[k], word[k]) {
        LowerLetter(v[k], word[k]);
      }
    }
    hide SameLetter, LowerChar;
  }

  lemma LowerOne(v: string)
    ensures Lower(v) == "1" <==> v == "1"
  {
    if |v| == 1 { assert Lower(v) == [LowerChar(v[0])] && v == [v[0]]; }
  }

  lemma YesSpelled(v: string)
    ensures Yes(v) <==> SaysYes(Trim(v))
  {
    LowerSpelled(Trim(v), "yes");
    LowerSpelled(Trim(v), "true");
    LowerOne(Trim(v));
    hide Trim, Lower, Spells;
  }

  lemma FlagKeys(k: string)
    ensures KeyOf(k).GuestOk? <==> k == "public" || k == "guest ok"
    ensures KeyOf(k).GuestOnly? <==> k == "guest only" || k == "only guest"
    ensures KeyOf(k).Path? <==> k == "path"
    ensures KeyOf(k).GuestAccountKey? <==> k == "guest account"
  {}

  lemma WriteKeys(k: string)
    ensures KeyOf(k).Writeable? <==> k == "writeable" || k == "writable"
    ensures KeyOf(k).ReadOnly? <==> k == "read only"
  {}

  lemma UserKeys(k: string)
    ensures KeyOf(k).ValidUsers? <==> k == "valid users"
    ensures KeyOf(k).WriteList? <==> k == "write list"
    ensures KeyOf(k).InvalidUsers? <==> k == "invalid users"
  {}

  lemma WriteKeysDiffer()
    ensures "read only" != "writeable" && "read only" != "writable"
  {}

  /** What one setting does: its key's field changes as told, and no other. */
  lemma SettingSpelled(cur: SmbShare, k: string, v: string)
    ensures var after := Set(cur, KeyOf(k), v);
            && after.name == cur.name
            && after.path == (if k == "path" then Trim(v) else cur.path)
            && after.guestOk == (if k == "public" || k == "guest ok" then SaysYes(Trim(v)) else cur.guestOk)
            && after.guestOnly == (if k == "guest only" || k == "only guest" then SaysYes(Trim(v)) else cur.guestOnly)
            && after.guestAccount == (if k == "guest account" then Trim(v) else cur.guestAccount)
            && after.writeable == (if k == "writeable" || k == "writable" then SaysYes(Trim(v))
                                   else if k == "read only" then !SaysYes(Trim(v)) else cur.writeable)
            && after.validUsers == (if k == "valid users" then Users(v) else cur.validUsers)
            && after.writeList == (if k == "write list" then Users(v) else cur.writeList)
            && after.invalidUsers == (if k == "invalid users" then Users(v) else cur.invalidUsers)
  {
    YesSpelled(v);
    FlagKeys(k);
    WriteKeys(k);
    WriteKeysDiffer();
    UserKeys(k);
    hide Users, Trim, Yes, SaysYes, KeyOf;
  }

  /** A header opens a section with everything off; blank lines and comments are passed over. */
  lemma ReadLineSpelled(out: seq<SmbShare>, t: string)
    ensures var after := ReadLine(out, t);
            var skipped := t == "" || t[0] == '#' || t[0] == ';';
            var header := |t| >= 2 && t[0] == '[' && t[|t| - 1] == ']';
            && (skipped ==> after == out)
            && (header ==> after == out + [SmbShare(t[1..|t| - 1], "", false, false, "", false, [], [], [])])
            && (!skipped && !header && (out == [] || '=' !in t) ==> after == out)
            && (!skipped && !header && out != [] ==>
                  forall i | 0 <= i < |t| && t[i] == '=' && (forall j | 0 <= j < i :: t[j] != '=') ::
                    after == out[|out| - 1 := Set(out[|out| - 1], KeyOf(Lower(Trim(t[..i]))), t[i + 1..])])
  {
    hide KeyOf, Lower, Trim, Set;
    forall i | 0 <= i < |t| && t[i] == '=' && (forall j | 0 <= j < i :: t[j] != '=') ensures Find(t, '=') == i {
      FirstIs(t, i);
    }
    if '=' !in t { FindAbsent(t, '='); }
    hide Find;
  }

  /** The mode a share is described by: guests who may write, guests who may only read, no guests. */
  lemma ModeSpelled(s: SmbShare)
    ensures var guests := s.guestOk && s.validUsers == [];
            var write := s.writeable || s.guestAccount in s.writeList;
            s.Mode() == if guests && write then "public" else if guests then "secure" else "private"
  {}

  /** Guests run as the account of the first `global` section that names one, else as nobody. */
  lemma {:induction false} AccountSpelled(out: seq<SmbShare>)
    ensures (forall i | 0 <= i < |out| :: out[i].name != "global" || out[i].guestAccount == "") ==>
              GuestAccount(out) == "nobody"
    ensures forall i | 0 <= i < |out| && out[i].name == "global" && out[i].guestAccount != ""
                       && (forall j | 0 <= j < i :: out[j].name != "global" || out[j].guestAccount == "") ::
              GuestAccount(out) == out[i].guestAccount
  {
    if out == [] {
    } else {
      AccountSpelled(out[1..]);
      assert out == [out[0]] + out[1..];
    }
  }

  // ---- A request ------------------------------------------------------------------------------

  ghost predicate IsUserName(u: string) {
    && 1 <= |u| <= 32 && u[0] in SMALL_LETTERS
    && forall i | 0 <= i < |u| :: u[i] in SMALL_LETTERS || u[i] in DIGITS || u[i] in "_-."
  }

  lemma UserSpelled(u: string)
    ensures ValidUser(u) <==> IsUserName(u)
  {
    forall c: char ensures IsLowerAscii(c) <==> c in SMALL_LETTERS { SmallLetterListed(c); }
    forall c: char ensures IsDigitAscii(c) <==> c in DIGITS { DigitListed(c); }
    hide IsLowerAscii, IsDigitAscii;
  }

  ghost predicate IsShareName(s: string) {
    && 1 <= |s| <= 64 && s[0] != '.' && s[0] != ' ' && s[|s| - 1] != ' '
    && forall i | 0 <= i < |s| :: s[i] in LETTERS_AND_DIGITS || s[i] in " _-.+()"
  }

  lemma ShareNameSpelled(s: string)
    ensures ValidShareName(s) <==> IsShareName(s)
  {
    forall c: char ensures IsAlnumAscii(c) <==> c in LETTERS_AND_DIGITS { AlnumSpelled(c); }
    hide IsAlnumAscii;
    assert ". "[0] == '.' && ". "[1] == ' ';
  }

  /**
   A request is taken exactly if its names are, no list is longer than 64, and its lists fit its
   mode: none for a public share, no readers for a secure one, someone for a private one.
   */
  lemma RequestSpelled(share: string, security: string, read: seq<string>, write: seq<string>)
    ensures NewRequest(share, security, read, write).Ok? <==>
              && IsShareName(share) && |read| <= 64 && |write| <= 64
              && (forall u | u in read :: IsUserName(u)) && (forall u | u in write :: IsUserName(u))
              && (|| (security == "public" && read == [] && write == [])
                  || (security == "secure" && read == [])
                  || (security == "private" && (read != [] || write != [])))
    ensures NewRequest(share, security, read, write).Ok? ==>
              NewRequest(share, security, read, write).value
              == Request(share,
                         if security == "public" then Public else if security == "secure" then Secure else Private,
                         read, write)
  {
    ShareNameSpelled(share);
    forall u: string { UserSpelled(u); }
    hide ValidShareName, IsShareName, ValidUser, IsUserName;
    assert forall u :: u in read + write <==> u in read || u in write;
    ModesDiffer();
  }

  lemma ModesDiffer()
    ensures "public" != "secure" && "secure" != "private" && "public" != "private"
  {}

  /** What a request that was taken is like. */
  lemma TakenRequestSpelled(req: Request)
    ensures req.security.AsStr()
            == if req.security.Public? then "public" else if req.security.Secure? then "secure" else "private"
    ensures ValidRequest(req) <==>
              && IsShareName(req.share) && |req.readList| <= 64 && |req.writeList| <= 64
              && (forall u | u in req.readList :: IsUserName(u)) && (forall u | u in req.writeList :: IsUserName(u))
              && (req.security.Public? ==> req.readList == [] && req.writeList == [])
              && (req.security.Secure? ==> req.readList == [])
              && (req.security.Private? ==> req.readList != [] || req.writeList != [])
  {
    RequestSpelled(req.share, req.security.AsStr(), req.readList, req.writeList);
    ModesDiffer();
    hide NewRequest, IsShareName, IsUserName;
  }

  // ---- The users of a private share -----------------------------------------------------------

  lemma {:induction false} DedupStrict(s: seq<string>)
    requires Sorted(s)
    ensures StrictlySorted(Dedup(s))
    ensures s != [] ==> Dedup(s) != [] && Dedup(s)[0] == s[0]
  {
    if |s| < 2 {
    } else {
      var rest := Dedup(s[1..]);
      DedupStrict(s[1..]);
      if s[0] != s[1] {
        assert Less(s[0], rest[0]);
        forall j | 0 < j < |rest| ensures Less(s[0], rest[j]) {
          LessThrough(s[0], rest[0], rest[j]);
        }
      }
    }
  }

  lemma LessThrough(a: string, b: string, c: string)
    requires Less(a, b) && Less(b, c)
    ensures Less(a, c)
  {
    LeTransitive(a, b, c);
    if a == c { LeAntisymmetric(a, b); }
  }

  /** Readers and writers, each once, in byte order. */
  lemma PrivateUsersSpelled(req: Request)
    ensures var users := PrivateUsers(req);
            && (forall u :: u in users <==> u in req.readList || u in req.writeList)
            && (forall i, j | 0 <= i < j < |users| :: users[i] != users[j] && Le(users[i], users[j]))
  {
    var all := req.readList + req.writeList;
    SortSorted(all);
    DedupKeeps(Sort(all));
    DedupStrict(Sort(all));
    forall u ensures u in Sort(all) <==> u in all {
      assert u in multiset(Sort(all)) <==> u in multiset(all);
    }
  }

  // ---- Sections that are no shares ------------------------------------------------------------

  predicate IsShareSection(s: SmbShare) {
    s.name != "global" && s.name != "homes" && s.name != "printers"
  }

  /** Every section but the three special ones is listed, in order, with the account guests run as. */
  lemma {:induction false} SharesSpelled(before: seq<SmbShare>, s: SmbShare, account: string)
    ensures Shares(before + [s], account)
            == Shares(before, account) + if IsShareSection(s) then [s.(guestAccount := account)] else []
  {
    if before == [] {
      assert [s][1..] == [];
    } else {
      SharesSpelled(before[1..], s, account);
      assert (before + [s])[1..] == before[1..] + [s];
    }
  }
}
