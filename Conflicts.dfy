/**
 * Detection of a conflicting plugin: the scan of the active plugin
 * basenames, its cache in the `<ns>_conflicting_plugin` global, the guards
 * on registering the dashboard notice, and the plugin-name normaliser and
 * Lite/Pro relabelling that the notice uses.
 *
 * The PHP class is static and keeps its state in `$GLOBALS`; here those
 * globals are the fields of a `Conflicts` object. The active-plugin options
 * and the multisite flag are parameters; `add_action` registrations are
 * recorded (the basenames scheduled for deactivation, the number of notice
 * hooks), and the notice itself is returned as the pair of names it shows.
 */
module ConflictCheck {
  import opened Wrappers
  import opened PhpString
  import Stub
  import Seqs

  // ================================================================ the scan

  /** `array_unique`: the first occurrence of every value, in order; `seen` are values already taken. */
  function DedupAfter(s: seq<string>, seen: set<string>): (r: seq<string>)
    ensures forall x :: x in r <==> x in s && x !in seen
    ensures forall i, j :: 0 <= i < j < |r| ==> r[i] != r[j]
  {
    if s == [] then []
    else if s[0] in seen then DedupAfter(s[1..], seen)
    else
      var rest := DedupAfter(s[1..], seen + {s[0]});
      assert s[0] !in rest;
      [s[0]] + rest
  }

  function Dedup(s: seq<string>): seq<string> {
    DedupAfter(s, {})
  }

  /** The values of a sequence, as a set. */
  function Elems(s: seq<string>): set<string> {
    set x | x in s
  }

  /** A single value is kept exactly when it has not been seen. */
  lemma DedupAfterOne(x: string, seen: set<string>)
    ensures DedupAfter([x], seen) == if x in seen then [] else [x]
  {
    assert [x][1..] == [];
  }

  /**
   * `array_unique` keeps order: deduplicating `a + b` is deduplicating `a`, then
   * the values of `b` that neither `a` nor `seen` hold. With `DedupAfterOne` this
   * fixes the result completely, first occurrences in input order.
   */
  lemma {:induction false} DedupAfterAppend(a: seq<string>, b: seq<string>, seen: set<string>)
    ensures DedupAfter(a + b, seen) == DedupAfter(a, seen) + DedupAfter(b, seen + Elems(a))
    decreases |a|
  {
    if a == [] {
      assert a + b == b;
      assert seen + Elems(a) == seen;
    } else {
      var ab := a + b;
      assert ab[0] == a[0] && ab[1..] == a[1..] + b;
      assert Elems(a) == {a[0]} + Elems(a[1..]) by {
        assert a == [a[0]] + a[1..];
      }
      if a[0] in seen {
        DedupAfterAppend(a[1..], b, seen);
        assert seen + Elems(a[1..]) == seen + Elems(a);
      } else {
        DedupAfterAppend(a[1..], b, seen + {a[0]});
        assert seen + {a[0]} + Elems(a[1..]) == seen + Elems(a);
        Seqs.ConcatAssoc([a[0]], DedupAfter(a[1..], seen + {a[0]}), DedupAfter(b, seen + Elems(a)));
      }
    }
  }

  /** The basenames `doCheck` walks: the site's active plugins, then the network-wide ones on a multisite, without repeats. */
  function ActiveBasenames(active: seq<string>, multisite: bool, sitewide: seq<string>): (r: seq<string>)
    ensures forall b :: b in r <==> b in active || (multisite && b in sitewide)
    ensures forall i, j :: 0 <= i < j < |r| ==> r[i] != r[j]
  {
    Dedup(active + if multisite then sitewide else [])
  }

  /**
   * The scan order: the site's active plugins first, in their order, then the
   * network-wide ones the site list lacks, in theirs. Since the scan stops at
   * the first foreign slug, this order decides which basenames are deactivated.
   */
  lemma ActiveBasenamesOrder(active: seq<string>, multisite: bool, sitewide: seq<string>)
    ensures ActiveBasenames(active, multisite, sitewide) ==
              Dedup(active) + DedupAfter(if multisite then sitewide else [], Elems(active))
  {
    DedupAfterAppend(active, if multisite then sitewide else [], {});
    assert {} + Elems(active) == Elems(active);
  }

  /** `str_replace('_', '-', $s)`. */
  function Dashed(s: string): string {
    seq(|s|, k requires 0 <= k < |s| => if s[k] == '_' then '-' else s[k])
  }

  /** No underscore survives, and only underscores change. */
  lemma DashedSpec(s: string)
    ensures var r := Dashed(s);
            && |r| == |s| && '_' !in r
            && (forall k :: 0 <= k < |s| && s[k] != '_' ==> r[k] == s[k])
  {
  }

  /** Replacing underscores a second time changes nothing. */
  lemma DashedIdempotent(s: string)
    ensures Dashed(Dashed(s)) == Dashed(s)
  {
    DashedSpec(s);
  }

  /** The namespace `comment_mail` becomes the slug `comment-mail`. */
  lemma DashedNamespace()
    ensures Dashed(Stub.GlobalNs) == "comment-mail"
  {
    var d := Dashed(Stub.GlobalNs);
    assert |d| == |"comment-mail"|;
    forall k | 0 <= k < |d|
      ensures d[k] == "comment-mail"[k]
    {
    }
  }

  /** The slugs the running edition conflicts with (`IS_PRO` is `isPro`). */
  function ConflictingSlugs(isPro: bool): seq<string> {
    [Dashed(Stub.GlobalNs) + if isPro then "" else "-pro"]
  }

  /** The slugs of the plugin's own two editions: a match among them is deactivated, never reported. */
  predicate IsOwnSlug(slug: string) {
    slug == "comment-mail" || slug == "comment-mail-pro"
  }

  /** The slug `doCheck` reads from a basename: the part before the first `/`, when that is truthy. */
  function SlugOf(basename: string): (r: Option<string>)
    ensures r.Some? ==> Truthy(r.value) && '/' !in r.value && StartsWith(basename, r.value + "/")
    ensures r.None? <==> '/' !in basename || !Truthy(Before(basename, '/').value)
  {
    match Before(basename, '/')
    case None => None
    case Some(p) => if Truthy(p) then Some(p) else None
  }

  /** What a full scan finds: the conflict (`''` for none) and the basenames scheduled for deactivation on the way. */
  datatype ScanResult = ScanResult(conflict: string, deactivate: seq<string>)

  /** The `foreach` of `doCheck`: it stops at the first matching slug that is not one of the plugin's own. */
  function Scan(basenames: seq<string>, conflicting: seq<string>): ScanResult {
    if basenames == [] then ScanResult("", [])
    else
      var rest := Scan(basenames[1..], conflicting);
      match SlugOf(basenames[0])
      case None => rest
      case Some(slug) =>
        if slug !in conflicting then rest
        else if IsOwnSlug(slug) then rest.(deactivate := [basenames[0]] + rest.deactivate)
        else ScanResult(slug, [])
  }

  /** A scan that finds nothing in a prefix continues into the rest, keeping the prefix's deactivations. */
  lemma {:induction false} ScanAppend(a: seq<string>, b: seq<string>, conflicting: seq<string>)
    requires Scan(a, conflicting).conflict == ""
    ensures Scan(a + b, conflicting) ==
              ScanResult(Scan(b, conflicting).conflict, Scan(a, conflicting).deactivate + Scan(b, conflicting).deactivate)
  {
    if a == [] {
      assert a + b == b;
    } else {
      assert (a + b)[0] == a[0];
      assert (a + b)[1..] == a[1..] + b;
      match SlugOf(a[0])
      case None =>
        ScanAppend(a[1..], b, conflicting);
      case Some(slug) =>
        if slug !in conflicting {
          ScanAppend(a[1..], b, conflicting);
        } else if IsOwnSlug(slug) {
          ScanAppend(a[1..], b, conflicting);
          Seqs.ConcatAssoc([a[0]], Scan(a[1..], conflicting).deactivate, Scan(b, conflicting).deactivate);
        }
    }
  }

  /** The scan of a single basename. */
  lemma ScanOne(b: string, conflicting: seq<string>)
    ensures Scan([b], conflicting) ==
              match SlugOf(b)
              case None => ScanResult("", [])
              case Some(slug) =>
                if slug !in conflicting then ScanResult("", [])
                else if IsOwnSlug(slug) then ScanResult("", [b])
                else ScanResult(slug, [])
  {
    assert [b][1..] == [];
  }

  /** One iteration of the scan after a prefix without a conflict: it extends the prefix, and a conflict found here ends the whole scan. */
  lemma ScanStep(basenames: seq<string>, i: nat, conflicting: seq<string>)
    requires i < |basenames| && Scan(basenames[..i], conflicting).conflict == ""
    ensures var pre := Scan(basenames[..i], conflicting);
            var one := Scan([basenames[i]], conflicting);
            && Scan(basenames[..i + 1], conflicting) == ScanResult(one.conflict, pre.deactivate + one.deactivate)
            && (one.conflict != "" ==> Scan(basenames, conflicting) == ScanResult(one.conflict, pre.deactivate))
  {
    var b := basenames[i];
    assert basenames[..i + 1] == basenames[..i] + [b];
    ScanAppend(basenames[..i], [b], conflicting);
    ScanAppend(basenames[..i], basenames[i..], conflicting);
    assert basenames[..i] + basenames[i..] == basenames;
    assert basenames[i..][0] == b && basenames[i..][1..] == basenames[i + 1..];
    ScanOne(b, conflicting);
  }

  /**
   * A reported conflict is a truthy matching slug that is not the plugin's
   * own, read from one of the basenames; every basename scheduled for
   * deactivation is one whose slug is the plugin's own and matches.
   */
  lemma {:induction false} ScanSound(basenames: seq<string>, conflicting: seq<string>)
    ensures var r := Scan(basenames, conflicting);
            && (r.conflict != "" ==>
                  && Truthy(r.conflict) && r.conflict in conflicting && !IsOwnSlug(r.conflict)
                  && exists i :: 0 <= i < |basenames| && SlugOf(basenames[i]) == Some(r.conflict))
            && (forall b :: b in r.deactivate ==>
                  b in basenames && SlugOf(b).Some? && SlugOf(b).value in conflicting && IsOwnSlug(SlugOf(b).value))
  {
    if basenames != [] {
      ScanSound(basenames[1..], conflicting);
      var r := Scan(basenames, conflicting);
      var rest := Scan(basenames[1..], conflicting);
      if r.conflict != "" && r.conflict == rest.conflict {
        var i :| 0 <= i < |basenames[1..]| && SlugOf(basenames[1..][i]) == Some(r.conflict);
        assert SlugOf(basenames[i + 1]) == Some(r.conflict);
      }
    }
  }

  /** With no matching slug outside the plugin's own, nothing is reported. */
  lemma {:induction false} ScanReportsOnlyForeignSlugs(basenames: seq<string>, conflicting: seq<string>)
    requires forall s :: s in conflicting ==> IsOwnSlug(s)
    ensures Scan(basenames, conflicting).conflict == ""
  {
    if basenames != [] {
      ScanReportsOnlyForeignSlugs(basenames[1..], conflicting);
    }
  }

  /** A basename whose slug is listed and is not one of the plugin's own: the scan reports it. */
  predicate ForeignMatch(basename: string, conflicting: seq<string>) {
    SlugOf(basename).Some? && SlugOf(basename).value in conflicting && !IsOwnSlug(SlugOf(basename).value)
  }

  /** The scan reports the slug of the first basename with a foreign listed slug. */
  lemma {:induction false} ScanReportsFirstForeign(basenames: seq<string>, conflicting: seq<string>, i: nat)
    requires i < |basenames| && ForeignMatch(basenames[i], conflicting)
    requires forall j :: 0 <= j < i ==> !ForeignMatch(basenames[j], conflicting)
    ensures Scan(basenames, conflicting).conflict == SlugOf(basenames[i]).value
  {
    if i > 0 {
      assert !ForeignMatch(basenames[0], conflicting);
      forall j | 0 <= j < i - 1
        ensures !ForeignMatch(basenames[1..][j], conflicting)
      {
        assert basenames[1..][j] == basenames[j + 1];
      }
      ScanReportsFirstForeign(basenames[1..], conflicting, i - 1);
    }
  }

  /** The scan reports nothing exactly when no basename has a foreign listed slug. */
  lemma {:induction false} ScanNoConflictIff(basenames: seq<string>, conflicting: seq<string>)
    ensures Scan(basenames, conflicting).conflict == "" <==>
              forall i :: 0 <= i < |basenames| ==> !ForeignMatch(basenames[i], conflicting)
  {
    if basenames != [] {
      ScanNoConflictIff(basenames[1..], conflicting);
      if !ForeignMatch(basenames[0], conflicting) {
        if forall i :: 0 <= i < |basenames[1..]| ==> !ForeignMatch(basenames[1..][i], conflicting) {
          forall i | 0 <= i < |basenames|
            ensures !ForeignMatch(basenames[i], conflicting)
          {
            if i > 0 {
              assert basenames[i] == basenames[1..][i - 1];
            }
          }
        } else {
          var i :| 0 <= i < |basenames[1..]| && ForeignMatch(basenames[1..][i], conflicting);
          assert basenames[1..][i] == basenames[i + 1];
        }
      }
    }
  }

  /**
   * With `GLOBAL_NS` = `comment_mail`, both editions list only a slug of the
   * plugin's own, so `doCheck` never reports a conflict: a clashing edition
   * is only scheduled for deactivation.
   */
  lemma NoConflictIsEverReported(basenames: seq<string>, isPro: bool)
    ensures Scan(basenames, ConflictingSlugs(isPro)).conflict == ""
  {
    DashedNamespace();
    ScanReportsOnlyForeignSlugs(basenames, ConflictingSlugs(isPro));
  }

  // ================================================================ the plugin name

  /** The two characters of the edition separator run, `[_-]`. */
  predicate IsDash(c: char) {
    c == '_' || c == '-'
  }

  predicate EndsWith(s: string, suffix: string) {
    |suffix| <= |s| && s[|s| - |suffix|..] == suffix
  }

  /** `s` without its trailing run of `[_-]`. */
  function DropDashes(s: string): string {
    if |s| > 0 && IsDash(s[|s| - 1]) then DropDashes(s[..|s| - 1]) else s
  }

  /** Only a trailing run of `[_-]` is dropped, and all of it. */
  lemma {:induction false} DropDashesSpec(s: string)
    ensures var r := DropDashes(s);
            && |r| <= |s| && r == s[..|r|]
            && (forall k :: |r| <= k < |s| ==> IsDash(s[k]))
            && (r == [] || !IsDash(r[|r| - 1]))
  {
    if |s| > 0 && IsDash(s[|s| - 1]) {
      var t := s[..|s| - 1];
      DropDashesSpec(t);
      var r := DropDashes(t);
      assert t[..|r|] == s[..|r|];
      forall k | |r| <= k < |s|
        ensures IsDash(s[k])
      {
        if k < |s| - 1 {
          assert s[k] == t[k];
        }
      }
    }
  }

  /**
   * `preg_replace('/[_\-]+(?:lite|pro)$/', '', $s)`: an edition suffix and the
   * whole separator run before it are removed (the leftmost match starts at
   * the beginning of that run).
   */
  function StripEdition(s: string): string {
    if EndsWith(s, "lite") && |s| > 4 && IsDash(s[|s| - 5]) then DropDashes(s[..|s| - 4])
    else if EndsWith(s, "pro") && |s| > 3 && IsDash(s[|s| - 4]) then DropDashes(s[..|s| - 3])
    else s
  }

  /** Dropping a run of dashes after a stem that does not end in one gives back the stem. */
  lemma {:induction false} DropDashesRun(p: string, d: string)
    requires p == [] || !IsDash(p[|p| - 1])
    requires forall k :: 0 <= k < |d| ==> IsDash(d[k])
    ensures DropDashes(p + d) == p
    decreases |d|
  {
    if d == [] {
      assert p + d == p;
    } else {
      var s := p + d;
      assert s[|s| - 1] == d[|d| - 1];
      assert s[..|s| - 1] == p + d[..|d| - 1];
      DropDashesRun(p, d[..|d| - 1]);
    }
  }

  /** An edition suffix is removed with the whole dash run before it. */
  lemma StripEditionRemovesSuffix(p: string, d: string, e: string)
    requires p == [] || !IsDash(p[|p| - 1])
    requires d != [] && forall k :: 0 <= k < |d| ==> IsDash(d[k])
    requires e == "lite" || e == "pro"
    ensures StripEdition(p + d + e) == p
  {
    var s := p + d + e;
    assert s[..|s| - |e|] == p + d;
    assert s[|s| - |e|..] == e;
    assert s[|s| - |e| - 1] == d[|d| - 1];
    if e == "pro" {
      assert !EndsWith(s, "lite") by {
        assert s[|s| - 1] == 'o';
      }
    }
    DropDashesRun(p, d);
  }

  /** A name ending in neither edition keeps its ending. */
  lemma StripEditionKeepsOthers(s: string)
    requires !EndsWith(s, "lite") && !EndsWith(s, "pro")
    ensures StripEdition(s) == s
  {
  }

  predicate IsSlugChar(c: char) {
    ('a' <= c <= 'z') || ('0' <= c <= '9')
  }

  /** `preg_replace('/[^a-z0-9]/', ' ', $s)`. */
  function Spaced(s: string): string {
    if s == [] then [] else [if IsSlugChar(s[0]) then s[0] else ' '] + Spaced(s[1..])
  }

  /** Characters outside `[a-z0-9]` become spaces, each where it stands. */
  lemma {:induction false} SpacedSpec(s: string)
    ensures var r := Spaced(s);
            |r| == |s| && forall k :: 0 <= k < |s| ==> r[k] == if IsSlugChar(s[k]) then s[k] else ' '
  {
    if s != [] {
      var rest := Spaced(s[1..]);
      SpacedSpec(s[1..]);
      var r := Spaced(s);
      forall k | 0 <= k < |s|
        ensures r[k] == if IsSlugChar(s[k]) then s[k] else ' '
      {
        if k > 0 {
          assert r[k] == rest[k - 1] && s[k] == s[1..][k - 1];
        }
      }
    }
  }

  /** The default word delimiters of `ucwords()`: space, tab, CR, LF, form feed, vertical tab. */
  predicate IsWordDelimiter(c: char) {
    c == ' ' || c == '\t' || c == '\r' || c == '\n' || c == '\U{C}' || c == '\U{B}'
  }

  /** `ucwords()`, with `atStart` telling whether the previous character was a delimiter. */
  function UcWordsFrom(s: string, atStart: bool): string {
    if s == [] then []
    else [if atStart then UpperChar(s[0]) else s[0]] + UcWordsFrom(s[1..], IsWordDelimiter(s[0]))
  }

  /** Whether `ucwords()` starts a word at `k`: at the very start when `atStart`, otherwise after a delimiter. */
  predicate WordStart(s: string, k: nat, atStart: bool)
    requires k < |s|
  {
    if k == 0 then atStart else IsWordDelimiter(s[k - 1])
  }

  /** `ucwords()` upper-cases exactly the first character of every word and changes letter case only. */
  lemma {:induction false} UcWordsFromSpec(s: string, atStart: bool)
    ensures var r := UcWordsFrom(s, atStart);
            && |r| == |s|
            && (forall k :: 0 <= k < |s| ==> r[k] == if WordStart(s, k, atStart) then UpperChar(s[k]) else s[k])
            && (forall k :: 0 <= k < |s| ==> LowerChar(r[k]) == LowerChar(s[k]))
  {
    if s != [] {
      var rest := UcWordsFrom(s[1..], IsWordDelimiter(s[0]));
      UcWordsFromSpec(s[1..], IsWordDelimiter(s[0]));
      var r := UcWordsFrom(s, atStart);
      forall k | 0 <= k < |s|
        ensures r[k] == if WordStart(s, k, atStart) then UpperChar(s[k]) else s[k]
      {
        if k > 0 {
          assert r[k] == rest[k - 1] && s[k] == s[1..][k - 1];
          assert WordStart(s, k, atStart) == WordStart(s[1..], k - 1, IsWordDelimiter(s[0]));
        }
      }
    }
  }

  function UcWords(s: string): string {
    UcWordsFrom(s, true)
  }

  /** `str_replace('mail', 'Mail', $s)`: every occurrence, left to right. */
  function CapitalizeMail(s: string): string {
    if |s| < 4 then s
    else if s[..4] == "mail" then "Mail" + CapitalizeMail(s[4..])
    else [s[0]] + CapitalizeMail(s[1..])
  }

  /** An occurrence of `mail` starts at `k`. */
  predicate MailAt(s: string, k: nat) {
    k + 4 <= |s| && s[k..k + 4] == "mail"
  }

  /** Whether `mail` starts at `k` does not depend on what precedes position `j <= k`. */
  lemma MailAtShift(s: string, j: nat, k: nat)
    requires j <= k <= |s|
    ensures MailAt(s, k) == MailAt(s[j..], k - j)
  {
    if k + 4 <= |s| {
      assert s[k..k + 4] == s[j..][k - j..k - j + 4];
    }
  }

  /** Where `mail` starts, no other occurrence starts within its next three characters. */
  lemma MailAtHead(s: string, k: nat)
    requires MailAt(s, 0) && 0 < k < 4
    ensures !MailAt(s, k)
  {
    assert s[..4] == "mail";
    assert s[k] == "mail"[k] != 'm';
    assert k + 4 <= |s| ==> s[k..k + 4][0] == s[k];
  }

  /**
   * `str_replace('mail', 'Mail', $s)` capitalises the `m` of every occurrence
   * of `mail` (occurrences cannot overlap) and changes nothing else.
   */
  lemma {:induction false} CapitalizeMailSpec(s: string)
    ensures var r := CapitalizeMail(s);
            && |r| == |s|
            && (forall k :: 0 <= k < |s| ==> r[k] == if MailAt(s, k) then 'M' else s[k])
  {
    var r := CapitalizeMail(s);
    if |s| >= 4 {
      if s[..4] == "mail" {
        var rest := CapitalizeMail(s[4..]);
        CapitalizeMailSpec(s[4..]);
        assert r == "Mail" + rest;
        forall k | 0 <= k < |s|
          ensures r[k] == if MailAt(s, k) then 'M' else s[k]
        {
          if k == 0 {
            assert MailAt(s, 0);
          } else if k < 4 {
            MailAtHead(s, k);
            assert r[k] == "Mail"[k] && s[k] == s[..4][k];
          } else {
            MailAtShift(s, 4, k);
            assert r[k] == rest[k - 4] && s[k] == s[4..][k - 4];
          }
        }
      } else {
        var rest := CapitalizeMail(s[1..]);
        CapitalizeMailSpec(s[1..]);
        assert r == [s[0]] + rest;
        forall k | 0 <= k < |s|
          ensures r[k] == if MailAt(s, k) then 'M' else s[k]
        {
          if k > 0 {
            MailAtShift(s, 1, k);
            assert r[k] == rest[k - 1] && s[k] == s[1..][k - 1];
          }
        }
      }
    } else {
      forall k | 0 <= k < |s|
        ensures !MailAt(s, k)
      {
      }
    }
  }

  /** Replacing `mail` by `Mail` changes letter case only. */
  lemma CapitalizeMailKeepsLetters(s: string)
    ensures var r := CapitalizeMail(s);
            |r| == |s| && forall k :: 0 <= k < |s| ==> LowerChar(r[k]) == LowerChar(s[k])
  {
    var r := CapitalizeMail(s);
    CapitalizeMailSpec(s);
    forall k | 0 <= k < |s|
      ensures LowerChar(r[k]) == LowerChar(s[k])
    {
      if MailAt(s, k) {
        assert s[k..k + 4][0] == 'm';
      }
    }
  }

  /** The `construct_name` closure: a slug or namespace made into a display name. */
  function ConstructName(slugOrNs: string): string {
    CapitalizeMail(UcWords(Spaced(StripEdition(Trim(ToLower(slugOrNs))))))
  }

  /** The name is the normalised slug, only capitalised: lower-casing it gives the slug without edition, separators made spaces. */
  lemma ConstructNameLower(slugOrNs: string)
    ensures var n := ConstructName(slugOrNs);
            ToLower(n) == Spaced(StripEdition(Trim(ToLower(slugOrNs))))
  {
    var sp := Spaced(StripEdition(Trim(ToLower(slugOrNs))));
    var n := ConstructName(slugOrNs);
    SpacedSpec(StripEdition(Trim(ToLower(slugOrNs))));
    UcWordsFromSpec(sp, true);
    CapitalizeMailKeepsLetters(UcWords(sp));
    assert |n| == |sp|;
    ToLowerSpec(n);
    forall k | 0 <= k < |n|
      ensures ToLower(n)[k] == sp[k]
    {
      assert LowerChar(n[k]) == LowerChar(UcWords(sp)[k]) == LowerChar(sp[k]);
    }
  }

  /** A display name holds only ASCII letters, digits and spaces. */
  lemma ConstructNameAlphabet(slugOrNs: string)
    ensures forall k :: 0 <= k < |ConstructName(slugOrNs)| ==>
              var c := ConstructName(slugOrNs)[k];
              ('a' <= c <= 'z') || ('A' <= c <= 'Z') || ('0' <= c <= '9') || c == ' '
  {
    var n := ConstructName(slugOrNs);
    forall k | 0 <= k < |n|
      ensures ('a' <= n[k] <= 'z') || ('A' <= n[k] <= 'Z') || ('0' <= n[k] <= '9') || n[k] == ' '
    {
      ConstructNameLower(slugOrNs);
      ToLowerSpec(n);
      SpacedSpec(StripEdition(Trim(ToLower(slugOrNs))));
      assert IsSlugChar(LowerChar(n[k])) || LowerChar(n[k]) == ' ';
    }
  }

  lemma UcWordsExample()
    ensures UcWords("x mail") == "X Mail"
  {
    var s := "x mail";
    UcWordsFromSpec(s, true);
    var r := UcWords(s);
    assert WordStart(s, 0, true) && WordStart(s, 2, true);
    assert !WordStart(s, 1, true) && !WordStart(s, 3, true) && !WordStart(s, 4, true) && !WordStart(s, 5, true);
    assert r[0] == 'X' && r[1] == ' ' && r[2] == 'M' && r[3] == 'a' && r[4] == 'i' && r[5] == 'l';
  }

  lemma CapitalizeMailExample()
    ensures CapitalizeMail("X Mail") == "X Mail"
  {
    var s := "X Mail";
    CapitalizeMailSpec(s);
    var r := CapitalizeMail(s);
    assert !MailAt(s, 0) && !MailAt(s, 1) && !MailAt(s, 2) && !MailAt(s, 3) && !MailAt(s, 4) && !MailAt(s, 5);
    assert r[0] == 'X' && r[1] == ' ' && r[2] == 'M' && r[3] == 'a' && r[4] == 'i' && r[5] == 'l';
  }

  /** `x-mail` becomes `X Mail`. */
  lemma ConstructNameExample()
    ensures ConstructName("x-mail") == "X Mail"
  {
    assert Trim(ToLower("x-mail")) == "x-mail" by {
      assert ToLower("x-mail") == "x-mail" by {
        ToLowerSpec("x-mail");
        var r := ToLower("x-mail");
        assert r[0] == 'x' && r[1] == '-' && r[2] == 'm' && r[3] == 'a' && r[4] == 'i' && r[5] == 'l';
      }
      TrimNoop("x-mail");
    }
    assert StripEdition("x-mail") == "x-mail" by {
      assert !EndsWith("x-mail", "lite") && !EndsWith("x-mail", "pro");
    }
    assert Spaced("x-mail") == "x mail" by {
      SpacedSpec("x-mail");
      var r := Spaced("x-mail");
      assert r[0] == 'x' && r[1] == ' ' && r[2] == 'm' && r[3] == 'a' && r[4] == 'i' && r[5] == 'l';
    }
    UcWordsExample();
    CapitalizeMailExample();
  }

  /** Both editions' slugs name the same product: the Lite/Pro clash the notice relabels. */
  lemma EditionSlugsShareName()
    ensures StripEdition("comment-mail-pro") == "comment-mail"
    ensures StripEdition("comment_mail_lite") == "comment_mail"
    ensures StripEdition("x--_pro") == "x"
  {
    assert "comment-mail-pro"[..13] == "comment-mail-";
    assert "comment-mail-"[..12] == "comment-mail";
    assert DropDashes("comment-mail-") == "comment-mail";
    assert "comment_mail_lite"[..13] == "comment_mail_";
    assert "comment_mail_"[..12] == "comment_mail";
    assert DropDashes("comment_mail_") == "comment_mail";
    assert "x--_pro"[..4] == "x--_";
    assert "x--_"[..3] == "x--";
    assert "x--"[..2] == "x-";
    assert "x-"[..1] == "x";
    assert DropDashes("x--_") == "x";
  }

  // ================================================================ the globals and the notice

  /** The names a conflict notice shows. */
  datatype NoticeNames = NoticeNames(thisPlugin: string, conflictingPlugin: string)

  class Conflicts {
    const isPro: bool
    var conflicting: string         // `$GLOBALS[<ns>_conflicting_plugin]`, `''` when unset
    var uninstalling: bool          // `$GLOBALS[<ns>_uninstalling]`
    var litePro: bool               // `$GLOBALS[<ns>_conflicting_plugin_lite_pro]`
    var deactivations: seq<string>  // basenames handed to `deactivate_plugins` on `admin_init`
    var noticeHooks: nat            // notice closures registered on `all_admin_notices`

    constructor(pro: bool, uninstallingNow: bool)
      ensures isPro == pro && uninstalling == uninstallingNow
      ensures conflicting == "" && !litePro && deactivations == [] && noticeHooks == 0
    {
      isPro := pro;
      conflicting := "";
      uninstalling := uninstallingNow;
      litePro := false;
      deactivations := [];
      noticeHooks := 0;
    }

    /**
     * `doCheck`: a truthy cached conflict is returned as it is; otherwise the
     * active basenames are scanned and the result is cached.
     */
    method DoCheck(active: seq<string>, multisite: bool, sitewide: seq<string>) returns (r: string)
      modifies this`conflicting, this`deactivations
      ensures Truthy(old(conflicting)) ==> r == old(conflicting) && unchanged(this)
      ensures !Truthy(old(conflicting)) ==>
                var s := Scan(ActiveBasenames(active, multisite, sitewide), ConflictingSlugs(isPro));
                && r == s.conflict && conflicting == r
                && deactivations == old(deactivations) + s.deactivate
    {
      if Truthy(conflicting) {
        return conflicting;
      }
      var slugs := ConflictingSlugs(isPro);
      var basenames := ActiveBasenames(active, multisite, sitewide);
      var i := 0;
      while i < |basenames|
        invariant 0 <= i <= |basenames|
        invariant Scan(basenames[..i], slugs).conflict == ""
        invariant deactivations == old(deactivations) + Scan(basenames[..i], slugs).deactivate
        invariant conflicting == old(conflicting)
      {
        var b := basenames[i];
        ScanStep(basenames, i, slugs);
        ScanOne(b, slugs);
        i := i + 1;
        var slug := Before(b, '/');
        if slug.None? || !Truthy(slug.value) {
          continue;
        }
        if slug.value in slugs {
          if IsOwnSlug(slug.value) {
            deactivations := deactivations + [b];
          } else {
            conflicting := slug.value;
            return conflicting;
          }
        }
      }
      assert basenames[..i] == basenames;
      conflicting := "";
      return conflicting;
    }

    /** `maybeEnqueueNotice`: register the notice unless uninstalling or there is no conflict. */
    method MaybeEnqueueNotice()
      modifies this`noticeHooks
      ensures noticeHooks == if uninstalling || !Truthy(conflicting) then old(noticeHooks) else old(noticeHooks) + 1
    {
      if uninstalling {
        return;
      }
      if !Truthy(conflicting) {
        return;
      }
      noticeHooks := noticeHooks + 1;
    }

    /** `check`: scan (or reuse the cache), register the notice on a conflict, and return the cached value. */
    method Check(active: seq<string>, multisite: bool, sitewide: seq<string>) returns (r: string)
      modifies this`conflicting, this`deactivations, this`noticeHooks
      ensures r == conflicting
      ensures Truthy(old(conflicting)) ==> conflicting == old(conflicting) && deactivations == old(deactivations)
      ensures !Truthy(old(conflicting)) ==>
                var s := Scan(ActiveBasenames(active, multisite, sitewide), ConflictingSlugs(isPro));
                conflicting == s.conflict && deactivations == old(deactivations) + s.deactivate
      ensures noticeHooks == if uninstalling || !Truthy(conflicting) then old(noticeHooks) else old(noticeHooks) + 1
    {
      var found := DoCheck(active, multisite, sitewide);
      if Truthy(found) {
        MaybeEnqueueNotice();
      }
      r := conflicting;
    }

    /**
     * The registered notice closure: nothing once the Lite/Pro notice was
     * shown; otherwise the two names, relabelled `… Pro` and `… Lite` (and
     * the flag set) when they coincide ignoring case. `thisPluginName` is
     * the `NAME` constant.
     */
    method RenderNotice(thisPluginName: string) returns (shown: Option<NoticeNames>)
      modifies this`litePro
      ensures old(litePro) ==> shown.None? && litePro
      ensures !old(litePro) ==>
                var other := ConstructName(conflicting);
                if CaseInsensitiveEqual(thisPluginName, other) then
                  shown == Some(NoticeNames(thisPluginName + " Pro", other + " Lite")) && litePro
                else
                  shown == Some(NoticeNames(thisPluginName, other)) && !litePro
    {
      if litePro {
        return None;
      }
      var mine := thisPluginName;
      var other := ConstructName(conflicting);
      if CaseInsensitiveEqual(mine, other) {
        mine := mine + " Pro";
        other := other + " Lite";
        litePro := true;
      }
      return Some(NoticeNames(mine, other));
    }
  }
}
