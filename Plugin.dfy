/**
 * The deterministic core of the plugin class: the option merge done at setup
 * and on save, the admin-notice queue (enqueue and the render pass that
 * consumes it), the post-type filter for meta boxes and the screen-option
 * filter.
 *
 * The two WordPress options the class reads and writes (`<ns>_options` and
 * `<ns>_notices`) are fields of the class; capability checks, the current
 * user, the current admin page, the notice-key signature and the contents of
 * the default template files are oracles passed in.
 */
module CommentMail {
  import opened Wrappers
  import opened PhpString
  import opened PhpArray
  import Stub
  import Seqs

  // ================================================================ options

  /**
   * `array_map('strval', array_intersect_key(array_merge($defaults, $current, $incoming), $defaults))`:
   * one value per default key, taken from `incoming`, else `current`, else the default, cast to a string.
   */
  function MergeOptions(defaults: map<string, string>, current: map<string, string>, incoming: map<string, Scalar>): map<string, string> {
    map k | k in defaults ::
      if k in incoming then Strval(incoming[k])
      else if k in current then current[k]
      else defaults[k]
  }

  /** `array_merge($a, $b)` on string keys: every key of either array, the value of `b` winning. */
  function ArrayMerge<V>(a: map<string, V>, b: map<string, V>): map<string, V> {
    a + b
  }

  /** `array_intersect_key($a, $b)`: the entries of `a` whose key `b` has. */
  function IntersectKey<V, W>(a: map<string, V>, b: map<string, W>): map<string, V> {
    map k | k in a && k in b :: a[k]
  }

  /** `array_map('strval', $a)`. */
  function StrvalAll(a: map<string, Scalar>): map<string, string> {
    map k | k in a :: Strval(a[k])
  }

  /** An array of strings seen as an array of PHP scalars. */
  function AsScalars(a: map<string, string>): map<string, Scalar> {
    map k | k in a :: Str(a[k])
  }

  /**
   * The closed form agrees with the three PHP array calls of `options_quick_save`
   * and `options_save`, applied one after the other.
   */
  lemma MergeOptionsSpec(defaults: map<string, string>, current: map<string, string>, incoming: map<string, Scalar>)
    ensures MergeOptions(defaults, current, incoming) ==
              StrvalAll(IntersectKey(ArrayMerge(ArrayMerge(AsScalars(defaults), AsScalars(current)), incoming), defaults))
  {
    var r := MergeOptions(defaults, current, incoming);
    var merged := ArrayMerge(ArrayMerge(AsScalars(defaults), AsScalars(current)), incoming);
    var p := StrvalAll(IntersectKey(merged, defaults));
    assert r.Keys == p.Keys;
    forall k | k in r
      ensures r[k] == p[k]
    {
      if k !in incoming && k in current {
        assert merged[k] == Str(current[k]);
      } else if k !in incoming {
        assert merged[k] == Str(defaults[k]);
      }
    }
  }

  /** Saving the same values again changes nothing. */
  lemma MergeOptionsIdempotent(defaults: map<string, string>, current: map<string, string>, incoming: map<string, Scalar>)
    ensures var once := MergeOptions(defaults, current, incoming);
            MergeOptions(defaults, once, incoming) == once
  {
  }

  /** A quick save of no new values leaves well-formed options as they were. */
  lemma MergeNothingIsIdentity(defaults: map<string, string>, current: map<string, string>)
    requires current.Keys == defaults.Keys
    ensures MergeOptions(defaults, current, map[]) == current
  {
  }

  /** `if(!$options['auto_confirm_force_enable']) $options['all_wp_users_confirm_email'] = '0';` */
  function AutoConfirmOverride(o: map<string, string>): map<string, string> {
    if "auto_confirm_force_enable" in o && Truthy(o["auto_confirm_force_enable"]) then o
    else o["all_wp_users_confirm_email" := "0"]
  }

  /** The options `setup` computes from the defaults and the stored value (`None` when it is not an array). */
  function SetupOptions(defaults: map<string, string>, stored: Option<map<string, Scalar>>): map<string, string> {
    AutoConfirmOverride(MergeOptions(defaults, map[], stored.GetOr(map[])))
  }

  /** After setup: exactly the default keys, stored values override defaults, and auto-confirm forces the e-mail flag off. */
  lemma SetupOptionsSpec(defaults: map<string, string>, stored: Option<map<string, Scalar>>)
    requires "all_wp_users_confirm_email" in defaults && "auto_confirm_force_enable" in defaults
    ensures var o := SetupOptions(defaults, stored);
            var s := stored.GetOr(map[]);
            && o.Keys == defaults.Keys
            && (forall k :: k in defaults && k != "all_wp_users_confirm_email" ==>
                  o[k] == if k in s then Strval(s[k]) else defaults[k])
            && (!Truthy(o["auto_confirm_force_enable"]) ==> o["all_wp_users_confirm_email"] == "0")
            && (Truthy(o["auto_confirm_force_enable"]) ==>
                  o["all_wp_users_confirm_email"] ==
                    if "all_wp_users_confirm_email" in s then Strval(s["all_wp_users_confirm_email"])
                    else defaults["all_wp_users_confirm_email"])
  {
  }

  /** An option key naming a template (`strpos($key, 'template__') === 0`). */
  predicate IsTemplateKey(k: string) {
    StartsWith(k, "template__")
  }

  /** The pass of `options_save` that blanks every template equal to its default file up to whitespace. */
  function BlankDefaultTemplates(o: map<string, string>, defaultTemplate: string -> string): map<string, string> {
    map k | k in o ::
      if IsTemplateKey(k) && StripSpace(o[k]) == StripSpace(defaultTemplate(k)) then "" else o[k]
  }

  /**
   * After the pass, a template equal to its default up to whitespace is blank, a
   * customised template is kept as it is, and other options are untouched.
   */
  lemma BlankDefaultTemplatesSpec(o: map<string, string>, defaultTemplate: string -> string)
    ensures var r := BlankDefaultTemplates(o, defaultTemplate);
            && r.Keys == o.Keys
            && (forall k :: k in o && !IsTemplateKey(k) ==> r[k] == o[k])
            && (forall k :: k in o && IsTemplateKey(k) && StripSpace(o[k]) == StripSpace(defaultTemplate(k)) ==> r[k] == "")
            && (forall k :: k in o && IsTemplateKey(k) && StripSpace(o[k]) != StripSpace(defaultTemplate(k)) ==> r[k] == o[k])
  {
  }

  /** A template that differs from its default only in whitespace is blanked: reformatting a default is not customising it. */
  lemma ReformattedDefaultIsBlanked(o: map<string, string>, defaultTemplate: string -> string, k: string, pad: string)
    requires k in o && IsTemplateKey(k) && o[k] == defaultTemplate(k) + pad
    requires forall i :: 0 <= i < |pad| ==> IsSpace(pad[i])
    ensures BlankDefaultTemplates(o, defaultTemplate)[k] == ""
  {
    StripSpaceAppend(defaultTemplate(k), pad);
    StripSpaceIgnoresSpace(pad);
    assert StripSpace(defaultTemplate(k)) + "" == StripSpace(defaultTemplate(k));
  }

  /** Blanking is idempotent: a saved blank template stays blank and a customised one stays as it is. */
  lemma BlankDefaultTemplatesIdempotent(o: map<string, string>, defaultTemplate: string -> string)
    ensures var r := BlankDefaultTemplates(o, defaultTemplate);
            BlankDefaultTemplates(r, defaultTemplate) == r
  {
    var r := BlankDefaultTemplates(o, defaultTemplate);
    assert StripSpace("") == "";
    var rr := BlankDefaultTemplates(r, defaultTemplate);
    forall k | k in r
      ensures rr[k] == r[k]
    {
      if IsTemplateKey(k) && StripSpace(r[k]) == StripSpace(defaultTemplate(k)) {
        assert r[k] == "";
      }
    }
  }

  // ================================================================ notices

  /** A notice as it sits in the `<ns>_notices` option: any of its properties may be unset. */
  datatype RawNotice = RawNotice(
    markup: Option<string>,
    requiresCap: Option<string>,
    forUserId: Option<int>,
    forPage: Option<string>,
    persistent: Option<bool>,
    persistentId: Option<string>,
    transient: Option<bool>,
    pushToTop: Option<bool>,
    kind: Option<string>)

  /** A notice after its arguments are normalised against the defaults. */
  datatype Notice = Notice(
    markup: string,
    requiresCap: string,
    forUserId: int,
    forPage: string,
    persistent: bool,
    persistentId: string,
    transient: bool,
    pushToTop: bool,
    kind: string)

  /** No arguments at all. */
  const NoArgs := RawNotice(None, None, None, None, None, None, None, None, None)

  predicate IsNoticeType(t: string) {
    t == "notice" || t == "error" || t == "warning"
  }

  /** The `requires_cap` format: trimmed, then non-word characters to `_` and lower case, or `''` if falsy. */
  function CapabilityName(cap: string): string {
    var t := Trim(cap);
    if Truthy(t) then ToLower(ReplaceNonWord(t)) else ""
  }

  /** The argument normalisation of `enqueue_notice` and `all_admin_notices`, with `markup` already cast and trimmed. */
  function NormalizeNotice(markup: string, a: RawNotice): Notice {
    Notice(
      markup,
      CapabilityName(a.requiresCap.GetOr("")),
      a.forUserId.GetOr(0),
      Trim(a.forPage.GetOr("")),
      a.persistent.GetOr(false),
      a.persistentId.GetOr(""),
      a.transient.GetOr(false),
      a.pushToTop.GetOr(false),
      if a.kind.Some? && IsNoticeType(a.kind.value) then a.kind.value else "notice")
  }

  /** The array `enqueue_notice` stores: every property set. */
  function Stored(n: Notice): RawNotice {
    RawNotice(Some(n.markup), Some(n.requiresCap), Some(n.forUserId), Some(n.forPage), Some(n.persistent),
              Some(n.persistentId), Some(n.transient), Some(n.pushToTop), Some(n.kind))
  }

  /** How `all_admin_notices` reads a stored entry back. */
  function ReadBack(r: RawNotice): Notice {
    NormalizeNotice(Trim(r.markup.GetOr("")), r)
  }

  /** A capability name is empty or a truthy string of lower-case word characters. */
  lemma CapabilityNameFormat(cap: string)
    ensures var c := CapabilityName(cap);
            && (c == "" || Truthy(c))
            && forall k :: 0 <= k < |c| ==> IsWordChar(c[k]) && LowerChar(c[k]) == c[k]
  {
    var t := Trim(cap);
    if Truthy(t) {
      var c := ToLower(ReplaceNonWord(t));
      ReplaceNonWordSpec(t);
      ToLowerSpec(ReplaceNonWord(t));
      if |c| == 1 {
        assert t == [t[0]];
        assert t[0] != '0';
        assert c[0] != '0';
      }
    }
  }

  /** Normalising a capability name again does not change it. */
  lemma CapabilityNameIdempotent(cap: string)
    ensures CapabilityName(CapabilityName(cap)) == CapabilityName(cap)
  {
    var c := CapabilityName(cap);
    CapabilityNameFormat(cap);
    if c != "" {
      TrimNoop(c);
      ReplaceNonWordSpec(c);
      ToLowerSpec(ReplaceNonWord(c));
      assert ToLower(ReplaceNonWord(c)) == c;
    } else {
      TrimNoop(c);
    }
  }

  /** A notice `enqueue_notice` stores is read back by `all_admin_notices` exactly as it was stored. */
  lemma ReadBackStored(markup: string, a: RawNotice)
    requires Trim(markup) == markup
    ensures var n := NormalizeNotice(markup, a); ReadBack(Stored(n)) == n
  {
    var n := NormalizeNotice(markup, a);
    CapabilityNameIdempotent(a.requiresCap.GetOr(""));
    TrimIdempotent(a.forPage.GetOr(""));
  }

  /** `enqueue_notice`: what the notice store becomes. `sign` keys a notice by its sorted, normalised arguments. */
  function Enqueued(d: Dict<RawNotice>, markup: string, a: RawNotice, sign: Notice -> string): Dict<RawNotice> {
    var m := Trim(markup);
    if !Truthy(m) then d
    else
      var n := NormalizeNotice(m, a);
      if n.pushToTop then UnshiftAssoc(d, sign(n), Stored(n)) else Put(d, sign(n), Stored(n))
  }

  /**
   * A notice with markup is stored under its key and read back unchanged; every
   * other key keeps its entry; with `push_to_top` it is first.
   */
  lemma EnqueuedStoresNotice(d: Dict<RawNotice>, markup: string, a: RawNotice, sign: Notice -> string)
    requires Truthy(Trim(markup))
    ensures var n := NormalizeNotice(Trim(markup), a);
            var r := Enqueued(d, markup, a, sign);
            && Lookup(r, sign(n)) == Some(Stored(n))
            && ReadBack(Stored(n)) == n
            && (forall k :: k != sign(n) ==> Lookup(r, k) == Lookup(d, k))
            && (n.pushToTop ==> r[0] == Entry(sign(n), Stored(n)))
            && (!n.pushToTop && !HasKey(d, sign(n)) ==> r == d + [Entry(sign(n), Stored(n))])
            && (Distinct(d) ==> Distinct(r))
  {
    var n := NormalizeNotice(Trim(markup), a);
    TrimIdempotent(markup);
    ReadBackStored(Trim(markup), a);
    if n.pushToTop {
      UnshiftAssocSpec(d, sign(n), Stored(n));
    } else {
      PutSpec(d, sign(n), Stored(n));
    }
  }

  /** Markup that is blank (or `'0'`) after trimming leaves the store as it was. */
  lemma EnqueueBlankIsNoop(d: Dict<RawNotice>, markup: string, a: RawNotice, sign: Notice -> string)
    requires !Truthy(Trim(markup))
    ensures Enqueued(d, markup, a, sign) == d
  {
  }

  /** In particular, whitespace-only markup is never queued. */
  lemma EnqueueWhitespaceIsNoop(d: Dict<RawNotice>, markup: string, a: RawNotice, sign: Notice -> string)
    requires forall k :: 0 <= k < |markup| ==> IsTrimChar(markup[k])
    ensures Enqueued(d, markup, a, sign) == d
  {
    TrimOfBlankIsFalsy(markup);
    EnqueueBlankIsNoop(d, markup, a, sign);
  }

  /** Identical arguments overwrite rather than duplicate: enqueueing twice is enqueueing once. */
  lemma EnqueueTwiceIsOnce(d: Dict<RawNotice>, markup: string, a: RawNotice, sign: Notice -> string)
    ensures Enqueued(Enqueued(d, markup, a, sign), markup, a, sign) == Enqueued(d, markup, a, sign)
  {
    var m := Trim(markup);
    if Truthy(m) {
      var n := NormalizeNotice(m, a);
      if n.pushToTop {
        UnshiftAssocTwice(d, sign(n), Stored(n));
      } else {
        PutTwice(d, sign(n), Stored(n));
      }
    }
  }

  /** The normalised type is one of the three known types; `enqueue_error` and `enqueue_warning` force theirs. */
  lemma NoticeTypes(markup: string, a: RawNotice)
    ensures IsNoticeType(NormalizeNotice(markup, a).kind)
    ensures a.kind.Some? && !IsNoticeType(a.kind.value) ==> NormalizeNotice(markup, a).kind == "notice"
    ensures NormalizeNotice(markup, a.(kind := Some("error"))).kind == "error"
    ensures NormalizeNotice(markup, a.(kind := Some("warning"))).kind == "warning"
  {
  }

  /** Who is looking at the dashboard, and where. */
  datatype Viewer = Viewer(
    canView: bool,               // current_user_can(manage_cap) || current_user_can(cap)
    can: string -> bool,         // current_user_can
    userId: int,                 // get_current_user_id
    isMenuPage: string -> bool)  // utils_env->is_menu_page

  /** The four visibility filters of `all_admin_notices`. */
  predicate Visible(n: Notice, v: Viewer) {
    && v.canView
    && !(Truthy(n.requiresCap) && !v.can(n.requiresCap))
    && !(n.forUserId != 0 && v.userId != n.forUserId)
    && !(Truthy(n.forPage) && !v.isMenuPage(n.forPage))
  }

  /** The render pass removes a notice: always when transient, otherwise when shown to this viewer and not persistent. */
  predicate Removed(n: Notice, v: Viewer) {
    n.transient || (Visible(n, v) && !n.persistent)
  }

  /** The render pass echoes a notice. */
  predicate Displayed(n: Notice, v: Viewer) {
    Visible(n, v) && Truthy(n.markup)
  }

  /** What the render pass leaves of one entry: nothing, or the entry. */
  function Kept(e: Entry<RawNotice>, v: Viewer): Dict<RawNotice> {
    if Removed(ReadBack(e.value), v) then [] else [e]
  }

  /** What the render pass echoes for one entry: nothing, or its notice. */
  function Echoed(e: Entry<RawNotice>, v: Viewer): seq<Notice> {
    if Displayed(ReadBack(e.value), v) then [ReadBack(e.value)] else []
  }

  /** The entries the render pass leaves in the store, in order. */
  function Survivors(d: Dict<RawNotice>, v: Viewer): (r: Dict<RawNotice>)
    ensures |r| <= |d|
  {
    if d == [] then [] else Kept(d[0], v) + Survivors(d[1..], v)
  }

  /** The notices the render pass echoes, in order. */
  function Shown(d: Dict<RawNotice>, v: Viewer): seq<Notice> {
    if d == [] then [] else Echoed(d[0], v) + Shown(d[1..], v)
  }

  lemma {:induction false} SurvivorsAppend(a: Dict<RawNotice>, b: Dict<RawNotice>, v: Viewer)
    ensures Survivors(a + b, v) == Survivors(a, v) + Survivors(b, v)
  {
    if a == [] {
      assert a + b == b;
    } else {
      assert (a + b)[0] == a[0];
      assert (a + b)[1..] == a[1..] + b;
      SurvivorsAppend(a[1..], b, v);
      Seqs.ConcatAssoc(Kept(a[0], v), Survivors(a[1..], v), Survivors(b, v));
    }
  }

  lemma {:induction false} ShownAppend(a: Dict<RawNotice>, b: Dict<RawNotice>, v: Viewer)
    ensures Shown(a + b, v) == Shown(a, v) + Shown(b, v)
  {
    if a == [] {
      assert a + b == b;
    } else {
      assert (a + b)[0] == a[0];
      assert (a + b)[1..] == a[1..] + b;
      ShownAppend(a[1..], b, v);
      Seqs.ConcatAssoc(Echoed(a[0], v), Shown(a[1..], v), Shown(b, v));
    }
  }

  /** An entry stays exactly when the removal rules spare it: transient ones go, hidden or persistent ones stay. */
  lemma {:induction false} SurvivorsMembers(d: Dict<RawNotice>, v: Viewer)
    ensures forall e :: e in Survivors(d, v) <==> e in d && !Removed(ReadBack(e.value), v)
  {
    if d != [] {
      SurvivorsMembers(d[1..], v);
      assert d == [d[0]] + d[1..];
    }
  }

  /** A key that survives was set before. */
  lemma {:induction false} SurvivorsKeys(d: Dict<RawNotice>, v: Viewer, k: string)
    ensures HasKey(Survivors(d, v), k) ==> HasKey(d, k)
  {
    if d != [] {
      SurvivorsKeys(d[1..], v, k);
      var rest := Survivors(d[1..], v);
      if !Removed(ReadBack(d[0].value), v) {
        assert Survivors(d, v) == [d[0]] + rest;
        assert ([d[0]] + rest)[0] == d[0];
        assert ([d[0]] + rest)[1..] == rest;
        if d[0].key != k {
          assert Lookup(d, k) == Lookup(d[1..], k);
          assert Lookup([d[0]] + rest, k) == Lookup(rest, k);
        }
      } else {
        assert Survivors(d, v) == rest;
        if d[0].key != k {
          assert Lookup(d, k) == Lookup(d[1..], k);
        }
      }
    }
  }

  /** What survives the render pass is still a PHP array. */
  lemma {:induction false} SurvivorsDistinct(d: Dict<RawNotice>, v: Viewer)
    requires Distinct(d)
    ensures Distinct(Survivors(d, v))
  {
    if d != [] {
      SurvivorsDistinct(d[1..], v);
      var rest := Survivors(d[1..], v);
      if !Removed(ReadBack(d[0].value), v) {
        SurvivorsKeys(d[1..], v, d[0].key);
        assert Survivors(d, v) == [d[0]] + rest;
        assert ([d[0]] + rest)[1..] == rest;
      } else {
        assert Survivors(d, v) == rest;
      }
    }
  }

  /** In a PHP array the key of an entry occurs neither before nor after it. */
  lemma KeyOnlyAt<V>(d: Dict<V>, i: nat)
    requires Distinct(d) && i < |d|
    ensures !HasKey(d[..i], d[i].key) && !HasKey(d[i + 1..], d[i].key)
  {
    var k := d[i].key;
    var tail := d[i..];
    assert d[..i] + tail == d;
    assert tail[0] == d[i] && tail[1..] == d[i + 1..];
    assert Lookup(tail, k) == Some(d[i].value);
    DistinctSplit(d[..i], tail, k);
  }

  /** Unsetting the key of entry `i` from a store whose first part lacks that key removes exactly that entry. */
  lemma UnsetVisited<V>(done: Dict<V>, d: Dict<V>, i: nat)
    requires Distinct(d) && i < |d| && !HasKey(done, d[i].key)
    ensures Unset(done + d[i..], d[i].key) == done + d[i + 1..]
    ensures Unset(done + d[i + 1..], d[i].key) == done + d[i + 1..]
  {
    var k := d[i].key;
    var tail := d[i + 1..];
    KeyOnlyAt(d, i);
    UnsetSpec(tail, k);
    UnsetSpec(done, k);
    var here := d[i..];
    assert here == [d[i]] + tail;
    UnsetHead(d[i], tail);
    UnsetAppend(done, here, k);
    UnsetAppend(done, tail, k);
  }

  /** One step of the render loop: whether the current entry is kept, and what it echoes. */
  lemma RenderLast(d: Dict<RawNotice>, i: nat, v: Viewer)
    requires i < |d|
    ensures Survivors(d[..i + 1], v) == Survivors(d[..i], v) + Kept(d[i], v)
    ensures Shown(d[..i + 1], v) == Shown(d[..i], v) + Echoed(d[i], v)
  {
    var done := d[..i];
    var one := [d[i]];
    assert d[..i + 1] == done + one;
    SurvivorsAppend(done, one, v);
    ShownAppend(done, one, v);
    RenderOne(d[i], v);
  }

  lemma RenderOne(e: Entry<RawNotice>, v: Viewer)
    ensures Survivors([e], v) == Kept(e, v)
    ensures Shown([e], v) == Echoed(e, v)
  {
    var one := [e];
    assert one[0] == e && one[1..] == [];
    assert Kept(e, v) + [] == Kept(e, v);
    assert Echoed(e, v) + [] == Echoed(e, v);
  }

  // ================================================================ meta boxes and screen options

  /** The separators of the post-type lists: `[\s;,]`. */
  predicate IsListSeparator(c: char) {
    IsSpace(c) || c == ';' || c == ','
  }

  function Concat(ts: seq<string>): string {
    if ts == [] then "" else ts[0] + Concat(ts[1..])
  }

  /** `s` with every separator removed. */
  function WithoutSeparators(s: string): string {
    if s == [] then "" else (if IsListSeparator(s[0]) then "" else [s[0]]) + WithoutSeparators(s[1..])
  }

  /**
   * `preg_split('/[\s;,]+/', $s, NULL, PREG_SPLIT_NO_EMPTY)`, with the token
   * read so far in `current`: the maximal separator-free runs of `s`.
   */
  function SplitFrom(s: string, current: string): seq<string> {
    if s == [] then
      (if current == "" then [] else [current])
    else if IsListSeparator(s[0]) then
      (if current == "" then [] else [current]) + SplitFrom(s[1..], "")
    else
      SplitFrom(s[1..], current + [s[0]])
  }

  predicate SeparatorFree(t: string) {
    forall k :: 0 <= k < |t| ==> !IsListSeparator(t[k])
  }

  /** The tokens are non-empty and separator-free, and spell the input without its separators. */
  lemma {:induction false} SplitFromSpec(s: string, current: string)
    requires SeparatorFree(current)
    ensures var ts := SplitFrom(s, current);
            && (forall t :: t in ts ==> t != "" && SeparatorFree(t))
            && Concat(ts) == current + WithoutSeparators(s)
    decreases |s|
  {
    var ts := SplitFrom(s, current);
    if s == [] {
      if current != "" {
        assert ts == [current] && ts[1..] == [];
      }
    } else if IsListSeparator(s[0]) {
      var rest := SplitFrom(s[1..], "");
      SplitFromSpec(s[1..], "");
      assert "" + WithoutSeparators(s[1..]) == WithoutSeparators(s[1..]);
      if current != "" {
        assert ts == [current] + rest;
        assert ts[0] == current && ts[1..] == rest;
        Seqs.ConcatAssoc(current, Concat(rest), "");
      } else {
        assert ts == rest;
      }
      assert WithoutSeparators(s) == WithoutSeparators(s[1..]);
    } else {
      var next := current + [s[0]];
      assert SeparatorFree(next) by {
        forall k | 0 <= k < |next| ensures !IsListSeparator(next[k]) {
          if k < |current| { assert next[k] == current[k]; }
        }
      }
      SplitFromSpec(s[1..], next);
      assert WithoutSeparators(s) == [s[0]] + WithoutSeparators(s[1..]);
      Seqs.ConcatAssoc(current, [s[0]], WithoutSeparators(s[1..]));
    }
  }

  /** A separator-free stretch of input extends the current token, and no token ends inside it. */
  lemma {:induction false} SplitFromWhole(t: string, current: string)
    requires SeparatorFree(t)
    ensures SplitFrom(t, current) == if current + t == "" then [] else [current + t]
    decreases |t|
  {
    if t == [] {
      assert current + t == current;
    } else {
      assert !IsListSeparator(t[0]);
      assert SeparatorFree(t[1..]) by {
        forall k | 0 <= k < |t[1..]| ensures !IsListSeparator(t[1..][k]) {
          assert t[1..][k] == t[k + 1];
        }
      }
      SplitFromWhole(t[1..], current + [t[0]]);
      assert t == [t[0]] + t[1..];
      Seqs.ConcatAssoc(current, [t[0]], t[1..]);
    }
  }

  /** A separator always ends the current token: splitting distributes over a separator. */
  lemma {:induction false} SplitFromSeparator(a: string, sep: char, b: string, current: string)
    requires IsListSeparator(sep)
    ensures SplitFrom(a + [sep] + b, current) == SplitFrom(a, current) + SplitFrom(b, "")
    decreases |a|
  {
    var s := a + [sep] + b;
    if a == [] {
      assert s == [sep] + b;
      assert s[0] == sep && s[1..] == b;
    } else {
      assert s[0] == a[0];
      assert s[1..] == a[1..] + [sep] + b;
      if IsListSeparator(a[0]) {
        SplitFromSeparator(a[1..], sep, b, "");
        var c: seq<string> := if current == "" then [] else [current];
        Seqs.ConcatAssoc(c, SplitFrom(a[1..], ""), SplitFrom(b, ""));
      } else {
        SplitFromSeparator(a[1..], sep, b, current + [a[0]]);
      }
    }
  }

  /** A post-type list option, lower-cased and split. */
  function PostTypeList(option: string): seq<string> {
    SplitFrom(ToLower(option), "")
  }

  /**
   * `add_meta_boxes`: whether the small meta box is added for `postType`. The
   * user needs one of the two capabilities, the box is never added on
   * `post-new.php`, and the type must be enabled (or the enabled list empty)
   * and not excluded.
   */
  function AddsMetaBox(postType: string, enabledTypes: string, excludedTypes: string,
                       canManage: bool, canCap: bool, onPostNew: bool): bool
  {
    var pt := ToLower(postType);
    var enabled := PostTypeList(enabledTypes);
    var excluded := PostTypeList(excludedTypes);
    if !canManage && !canCap then false
    else if enabled != [] && pt !in enabled then false
    else if pt in excluded then false
    else !onPostNew
  }

  /** Exclusion wins: an excluded type never gets the box, whatever the enabled list says. */
  lemma MetaBoxExcludedWins(postType: string, enabledTypes: string, excludedTypes: string,
                            canManage: bool, canCap: bool, onPostNew: bool)
    requires ToLower(postType) in PostTypeList(excludedTypes)
    ensures !AddsMetaBox(postType, enabledTypes, excludedTypes, canManage, canCap, onPostNew)
  {
  }

  /** A non-empty enabled list that does not name the type denies the box. */
  lemma MetaBoxEnabledListMisses(postType: string, enabledTypes: string, excludedTypes: string,
                                 canManage: bool, canCap: bool, onPostNew: bool)
    requires PostTypeList(enabledTypes) != [] && ToLower(postType) !in PostTypeList(enabledTypes)
    ensures !AddsMetaBox(postType, enabledTypes, excludedTypes, canManage, canCap, onPostNew)
  {
  }

  /** The whole decision: a capable user, not on `post-new.php`, a type enabled (or no list) and not excluded. */
  lemma MetaBoxDecision(postType: string, enabledTypes: string, excludedTypes: string,
                        canManage: bool, canCap: bool, onPostNew: bool)
    ensures var pt := ToLower(postType);
            var enabled := PostTypeList(enabledTypes);
            AddsMetaBox(postType, enabledTypes, excludedTypes, canManage, canCap, onPostNew) <==>
              && (canManage || canCap) && !onPostNew
              && (enabled == [] || pt in enabled)
              && pt !in PostTypeList(excludedTypes)
  {
  }

  /** The post type is compared without regard to ASCII case. */
  lemma MetaBoxIgnoresCase(postType: string, enabledTypes: string, excludedTypes: string,
                           canManage: bool, canCap: bool, onPostNew: bool)
    ensures AddsMetaBox(ToLower(postType), enabledTypes, excludedTypes, canManage, canCap, onPostNew) ==
            AddsMetaBox(postType, enabledTypes, excludedTypes, canManage, canCap, onPostNew)
  {
    ToLowerIdempotent(postType);
  }

  /** The box is never added on `post-new.php`, nor for a user without either capability. */
  lemma MetaBoxNeverOnPostNew(postType: string, enabledTypes: string, excludedTypes: string,
                              canManage: bool, canCap: bool, onPostNew: bool)
    requires onPostNew || (!canManage && !canCap)
    ensures !AddsMetaBox(postType, enabledTypes, excludedTypes, canManage, canCap, onPostNew)
  {
  }

  /** With both lists empty, every capable user gets the box for every type outside `post-new.php`. */
  lemma MetaBoxEmptyListsAdmitAll(postType: string, canManage: bool, canCap: bool)
    requires canManage || canCap
    ensures AddsMetaBox(postType, "", "", canManage, canCap, false)
  {
    assert ToLower("") == "";
  }

  /**
   * The lists match whole tokens: when the enabled list is the single type
   * `token`, any other type, a part of `token` included, gets no box.
   */
  lemma MetaBoxMatchesWholeTokens(postType: string, token: string, excludedTypes: string,
                                  canManage: bool, canCap: bool, onPostNew: bool)
    requires token != "" && SeparatorFree(token) && ToLower(token) == token
    ensures AddsMetaBox(postType, token, excludedTypes, canManage, canCap, onPostNew) ==>
              ToLower(postType) == token
  {
    SplitFromWhole(token, "");
    assert "" + token == token;
  }

  /** A list of two types with one separator between them is those two types. */
  lemma PostTypeListOfTwo(a: string, sep: char, b: string)
    requires a != "" && b != "" && SeparatorFree(a) && SeparatorFree(b) && IsListSeparator(sep)
    requires ToLower(a + [sep] + b) == a + [sep] + b
    ensures PostTypeList(a + [sep] + b) == [a, b]
  {
    SplitFromSeparator(a, sep, b, "");
    SplitFromWhole(a, "");
    SplitFromWhole(b, "");
    assert "" + a == a && "" + b == b;
  }

  /** Every listed post type is non-empty and holds no separator, and together they spell the option without separators. */
  lemma PostTypeListTokens(option: string)
    ensures var ts := PostTypeList(option);
            && (forall t :: t in ts ==> t != "" && SeparatorFree(t))
            && Concat(ts) == WithoutSeparators(ToLower(option))
  {
    SplitFromSpec(ToLower(option), "");
    assert "" + WithoutSeparators(ToLower(option)) == WithoutSeparators(ToLower(option));
  }

  /** A post type containing a separator is never listed, so a non-empty enabled list never admits it. */
  lemma SeparatedTypeNeverEnabled(postType: string, enabledTypes: string, excludedTypes: string,
                                  canManage: bool, canCap: bool, onPostNew: bool, j: nat)
    requires j < |postType| && IsListSeparator(postType[j])
    requires PostTypeList(enabledTypes) != []
    ensures !AddsMetaBox(postType, enabledTypes, excludedTypes, canManage, canCap, onPostNew)
  {
    var pt := ToLower(postType);
    PostTypeListTokens(enabledTypes);
    ToLowerSpec(postType);
    assert IsListSeparator(pt[j]);
  }

  /** `set_screen_option`: save the value of the plugin's own screen options, defer to WordPress otherwise. */
  function ScreenOption<T>(whatWpSays: T, option: string, value: T): T {
    if StartsWith(option, Stub.GlobalNs + "_") then value else whatWpSays
  }

  /** The `per_page` screen options the plugin's list-table pages register. */
  const PerPageScreenOptions: seq<string> := [
    OwnOption("subs_per_page"),
    OwnOption("sub_event_log_entries_per_page"),
    OwnOption("queued_notifications_per_page"),
    OwnOption("queue_event_log_entries_per_page")]

  /** `GLOBAL_NS.'_'.$name`. */
  function OwnOption(name: string): string {
    Stub.GlobalNs + "_" + name
  }

  /**
   * Every screen option the plugin registers is saved with the value the user
   * chose; an option of WordPress or of another plugin, such as `edit_post_per_page`,
   * keeps what WordPress decided, even when it merely contains the namespace.
   */
  lemma ScreenOptionSavesOwnOptions<T>(whatWpSays: T, value: T)
    ensures forall o :: o in PerPageScreenOptions ==> ScreenOption(whatWpSays, o, value) == value
    ensures ScreenOption(whatWpSays, "edit_post_per_page", value) == whatWpSays
    ensures ScreenOption(whatWpSays, "wp_" + Stub.GlobalNs + "_per_page", value) == whatWpSays
  {
    var prefix := Stub.GlobalNs + "_";
    forall name: string
      ensures StartsWith(OwnOption(name), prefix)
    {
      assert OwnOption(name)[..|prefix|] == prefix;
    }
    assert "edit_post_per_page"[0] != prefix[0];
    var w := "wp_" + Stub.GlobalNs + "_per_page";
    assert w[0] != prefix[0];
  }

  /** The value is saved exactly for the options named `GLOBAL_NS.'_'.$name`; every other option keeps WordPress's answer. */
  lemma ScreenOptionOwnership<T>(whatWpSays: T, option: string, value: T)
    ensures (exists name :: option == OwnOption(name)) ==> ScreenOption(whatWpSays, option, value) == value
    ensures (forall name :: option != OwnOption(name)) ==> ScreenOption(whatWpSays, option, value) == whatWpSays
  {
    var prefix := Stub.GlobalNs + "_";
    forall name: string
      ensures StartsWith(OwnOption(name), prefix)
    {
      assert OwnOption(name)[..|prefix|] == prefix;
    }
    if StartsWith(option, prefix) {
      assert option == OwnOption(option[|prefix|..]);
    }
  }

  // ================================================================ the plugin object

  class Plugin {
    const defaults: map<string, string>
    var options: map<string, string>
    var storedOptions: Option<map<string, string>>  // the `<ns>_options` option this object last wrote; `None` until it writes
    var notices: Dict<RawNotice>            // the `<ns>_notices` option

    ghost predicate Valid()
      reads this
    {
      options.Keys == defaults.Keys && Distinct(notices)
    }

    /** The option part of `setup`; `stored` is the `<ns>_options` option, `None` when it is not an array. */
    constructor Setup(defaultOptions: map<string, string>, stored: Option<map<string, Scalar>>, storedNotices: Dict<RawNotice>)
      requires "all_wp_users_confirm_email" in defaultOptions
      requires Distinct(storedNotices)
      ensures Valid()
      ensures defaults == defaultOptions
      ensures options == SetupOptions(defaultOptions, stored)
      ensures storedOptions == None && notices == storedNotices
    {
      defaults := defaultOptions;
      var o := stored.GetOr(map[]);
      var merged := MergeOptions(defaultOptions, map[], o);
      if !("auto_confirm_force_enable" in merged && Truthy(merged["auto_confirm_force_enable"])) {
        merged := merged["all_wp_users_confirm_email" := "0"];
      }
      options := merged;
      storedOptions := None;
      notices := storedNotices;
    }

    /** `$this->options[$key]`, `''` when the key is missing. */
    function OptionValue(key: string): string
      reads this
    {
      if key in options then options[key] else ""
    }

    /** `options_quick_save`. */
    method OptionsQuickSave(incoming: map<string, Scalar>)
      requires Valid()
      modifies this`options, this`storedOptions
      ensures Valid()
      ensures options == MergeOptions(defaults, old(options), incoming)
      ensures storedOptions == Some(options)
    {
      options := MergeOptions(defaults, options, incoming);
      storedOptions := Some(options);
    }

    /** `options_save`: merge, then blank every template that equals its default up to whitespace. */
    method OptionsSave(incoming: map<string, Scalar>, defaultTemplate: string -> string)
      requires Valid()
      modifies this`options, this`storedOptions
      ensures Valid()
      ensures options == BlankDefaultTemplates(MergeOptions(defaults, old(options), incoming), defaultTemplate)
      ensures storedOptions == Some(options)
    {
      var merged := MergeOptions(defaults, options, incoming);
      options := BlankTemplatePass(merged, defaultTemplate);
      storedOptions := Some(options);
    }

    /** The `foreach` of `options_save` over the merged options, one key at a time. */
    static method BlankTemplatePass(merged: map<string, string>, defaultTemplate: string -> string)
      returns (o: map<string, string>)
      ensures o.Keys == merged.Keys
      ensures o == BlankDefaultTemplates(merged, defaultTemplate)
    {
      ghost var target := BlankDefaultTemplates(merged, defaultTemplate);
      o := merged;
      var todo := o.Keys;
      while todo != {}
        invariant todo <= merged.Keys
        invariant o.Keys == merged.Keys
        invariant forall k :: k in todo ==> o[k] == merged[k]
        invariant forall k :: k in merged && k !in todo ==> o[k] == target[k]
        decreases todo
      {
        var k :| k in todo;
        var value := o[k];
        assert target[k] == if IsTemplateKey(k) && StripSpace(value) == StripSpace(defaultTemplate(k)) then "" else value;
        if IsTemplateKey(k) {
          if StripSpace(value) == StripSpace(defaultTemplate(k)) {
            o := o[k := ""];
          }
        }
        todo := todo - {k};
      }
      assert o == target;
    }

    /** `enqueue_notice`. */
    method EnqueueNotice(markup: string, args: RawNotice, sign: Notice -> string)
      requires Valid()
      modifies this`notices
      ensures Valid()
      ensures notices == Enqueued(old(notices), markup, args, sign)
    {
      var m := Trim(markup);
      if !Truthy(m) {
        return;
      }
      var n := NormalizeNotice(m, args);
      var key := sign(n);
      if n.pushToTop {
        UnshiftAssocSpec(notices, key, Stored(n));
        notices := UnshiftAssoc(notices, key, Stored(n));
      } else {
        PutSpec(notices, key, Stored(n));
        notices := Put(notices, key, Stored(n));
      }
    }

    /** `enqueue_user_notice`: addressed to the current user unless a user is given. */
    method EnqueueUserNotice(markup: string, args: RawNotice, currentUserId: int, sign: Notice -> string)
      requires Valid()
      modifies this`notices
      ensures Valid()
      ensures notices == Enqueued(old(notices), markup,
                                  if args.forUserId.None? then args.(forUserId := Some(currentUserId)) else args, sign)
    {
      var a := args;
      if a.forUserId.None? {
        a := a.(forUserId := Some(currentUserId));
      }
      EnqueueNotice(markup, a, sign);
    }

    /** `enqueue_error`: the type is forced to `error`. */
    method EnqueueError(markup: string, args: RawNotice, sign: Notice -> string)
      requires Valid()
      modifies this`notices
      ensures Valid()
      ensures notices == Enqueued(old(notices), markup, args.(kind := Some("error")), sign)
    {
      EnqueueNotice(markup, args.(kind := Some("error")), sign);
    }

    /** `enqueue_warning`: the type is forced to `warning`. */
    method EnqueueWarning(markup: string, args: RawNotice, sign: Notice -> string)
      requires Valid()
      modifies this`notices
      ensures Valid()
      ensures notices == Enqueued(old(notices), markup, args.(kind := Some("warning")), sign)
    {
      EnqueueNotice(markup, args.(kind := Some("warning")), sign);
    }

    /** `enqueue_user_error`: an error addressed to the current user unless a user is given. */
    method EnqueueUserError(markup: string, args: RawNotice, currentUserId: int, sign: Notice -> string)
      requires Valid()
      modifies this`notices
      ensures Valid()
      ensures notices == Enqueued(old(notices), markup,
                                  (if args.forUserId.None? then args.(forUserId := Some(currentUserId)) else args)
                                    .(kind := Some("error")), sign)
    {
      var a := args;
      if a.forUserId.None? {
        a := a.(forUserId := Some(currentUserId));
      }
      EnqueueError(markup, a, sign);
    }

    /**
     * `all_admin_notices`: warn when the plugin is disabled, then echo and consume
     * the queue. Returns the notices echoed and whether the store was written.
     */
    method AllAdminNotices(disabledWarning: string, v: Viewer, sign: Notice -> string)
      returns (shown: seq<Notice>, wrote: bool)
      requires Valid()
      modifies this`notices
      ensures Valid()
      ensures var queued := if Truthy(old(OptionValue("enable"))) then old(notices)
                            else Enqueued(old(notices), disabledWarning, NoArgs.(kind := Some("warning")), sign);
              && notices == Survivors(queued, v)
              && shown == Shown(queued, v)
              && wrote == (notices != queued)
    {
      if !Truthy(OptionValue("enable")) {
        EnqueueWarning(disabledWarning, NoArgs, sign);
      }
      shown, wrote := RenderNotices(v);
    }

    /**
     * One pass of the loop of `all_admin_notices`, over the entry at `i` of
     * the store as it was before the loop; `done` is what the earlier passes left.
     */
    method RenderEntry(original: Dict<RawNotice>, i: nat, v: Viewer, ghost done: Dict<RawNotice>) returns (echoed: seq<Notice>)
      requires Distinct(original) && i < |original| && !HasKey(done, original[i].key)
      requires notices == done + original[i..]
      modifies this`notices
      ensures notices == done + Kept(original[i], v) + original[i + 1..]
      ensures echoed == Echoed(original[i], v)
    {
      var e := original[i];
      var n := ReadBack(e.value);
      UnsetVisited(done, original, i);
      assert original[i..] == [e] + original[i + 1..];
      echoed := [];
      if n.transient {
        notices := Unset(notices, e.key);
      }
      if !v.canView {
        return;
      }
      if Truthy(n.requiresCap) && !v.can(n.requiresCap) {
        return;
      }
      if n.forUserId != 0 && v.userId != n.forUserId {
        return;
      }
      if Truthy(n.forPage) && !v.isMenuPage(n.forPage) {
        return;
      }
      if Truthy(n.markup) {
        echoed := [n];
      }
      if !n.persistent {
        notices := Unset(notices, e.key);
      }
    }

    /** The loop of `all_admin_notices`: every entry is visited once and unset by the removal rules. */
    method RenderNotices(v: Viewer) returns (shown: seq<Notice>, wrote: bool)
      requires Valid()
      modifies this`notices
      ensures Valid()
      ensures notices == Survivors(old(notices), v)
      ensures shown == Shown(old(notices), v)
      ensures wrote == (notices != old(notices))
    {
      var original := notices;
      shown := [];
      if original == [] {
        return shown, false;
      }
      var i := 0;
      while i < |original|
        invariant 0 <= i <= |original|
        invariant notices == Survivors(original[..i], v) + original[i..]
        invariant shown == Shown(original[..i], v)
      {
        KeyOnlyAt(original, i);
        SurvivorsKeys(original[..i], v, original[i].key);
        var echoed := RenderEntry(original, i, v, Survivors(original[..i], v));
        RenderLast(original, i, v);
        shown := shown + echoed;
        i := i + 1;
      }
      assert original[..i] == original;
      assert original[i..] == [];
      assert notices == Survivors(original, v);
      SurvivorsDistinct(original, v);
      wrote := original != notices;
    }
  }
}
