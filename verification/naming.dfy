/**
 Default naming of auto-discovered permissions: a slug is singularised by
 suffix rules, turned into PascalCase, and used as the entity of permission
 strings (`Action:Entity`, `Action:Global:Entity`) and group labels
 (`Entity`, `Global Entity`).
 */
module Naming {
  import opened Seqs

  /** The characters of the split pattern `[-_\s/]`; `\s` is ECMAScript white space and line terminators. */
  predicate IsSeparator(c: char)
  {
    c == '-' || c == '_' || c == '/'
    || c == ' ' || c == '\t' || c == '\n' || c == '\r' || c == '\U{000B}' || c == '\U{000C}'
    || c == '\U{00A0}' || c == '\U{1680}' || ('\U{2000}' <= c <= '\U{200A}')
    || c == '\U{2028}' || c == '\U{2029}' || c == '\U{202F}' || c == '\U{205F}'
    || c == '\U{3000}' || c == '\U{FEFF}'
  }

  /** `toUpperCase` restricted to ASCII letters. */
  function Upper(c: char): (u: char)
    ensures 'a' <= c <= 'z' ==> 'A' <= u <= 'Z' && u as int - 'A' as int == c as int - 'a' as int
    ensures !('a' <= c <= 'z') ==> u == c
    ensures IsSeparator(u) <==> IsSeparator(c)
  {
    if 'a' <= c <= 'z' then (c as int - 32) as char else c
  }

  /** `part.charAt(0).toUpperCase() + part.slice(1)`. */
  function Capitalize(w: string): string
  {
    if |w| == 0 then w else [Upper(w[0])] + w[1..]
  }

  /** The index of the first separator, or `|s|` when there is none. */
  function FirstSeparator(s: string): (i: nat)
    ensures i <= |s|
    ensures forall k :: 0 <= k < i ==> !IsSeparator(s[k])
    ensures i < |s| ==> IsSeparator(s[i])
  {
    if |s| == 0 || IsSeparator(s[0]) then 0 else 1 + FirstSeparator(s[1..])
  }

  /** `s` without its leading run of separators. */
  function DropSeparators(s: string): (r: string)
    ensures |r| <= |s| && r == s[|s| - |r|..]
    ensures forall i :: 0 <= i < |s| - |r| ==> IsSeparator(s[i])
    ensures |s| > 0 && IsSeparator(s[0]) ==> |r| < |s|
    ensures |r| > 0 ==> !IsSeparator(r[0])
  {
    if |s| > 0 && IsSeparator(s[0]) then
      var r := DropSeparators(s[1..]);
      assert forall i :: 1 <= i < |s| ==> s[i] == s[1..][i - 1];
      r
    else s
  }

  /** `s.split(/[-_\s/]+/)`: the pieces between maximal runs of separators (empty at either end). */
  function SplitOnSeparators(s: string): seq<string>
    decreases |s|
  {
    var i := FirstSeparator(s);
    if i == |s| then [s] else [s[..i]] + SplitOnSeparators(DropSeparators(s[i..]))
  }

  /** The `.filter(Boolean)` test on a piece: only the empty string is dropped. */
  predicate NonEmpty(part: string)
  {
    |part| > 0
  }

  /** `.map(capitalize).join('')`. */
  function CapitalizeAndJoin(parts: seq<string>): string
  {
    if |parts| == 0 then "" else Capitalize(parts[0]) + CapitalizeAndJoin(parts[1..])
  }

  /** The number of characters of `s` that are not separators. */
  function NonSeparatorCount(s: string): nat
  {
    if |s| == 0 then 0 else (if IsSeparator(s[0]) then 0 else 1) + NonSeparatorCount(s[1..])
  }

  /**
   PascalCase read character by character: separators vanish, and a kept
   character is upper-cased exactly when it starts a word (`atStart`).
   */
  function PascalChars(s: string, atStart: bool): (r: string)
    ensures |r| == NonSeparatorCount(s)
    ensures forall k :: 0 <= k < |r| ==> !IsSeparator(r[k])
  {
    if |s| == 0 then ""
    else if IsSeparator(s[0]) then PascalChars(s[1..], true)
    else [if atStart then Upper(s[0]) else s[0]] + PascalChars(s[1..], false)
  }

  /**
   `toPascalCase`: split on separator runs, drop empty pieces, capitalise and
   join. The result has no separators, one character per non-separator of the
   input, and is the character-level reading above.
   */
  function ToPascalCase(s: string): (r: string)
    ensures r == PascalChars(s, true)
    ensures |r| == NonSeparatorCount(s)
    ensures forall k :: 0 <= k < |r| ==> !IsSeparator(r[k])
  {
    PascalCaseIsCharLevel(s);
    CapitalizeAndJoin(Filter(NonEmpty, SplitOnSeparators(s)))
  }

  lemma {:induction false} PlainWordPascal(w: string, atStart: bool)
    requires forall k :: 0 <= k < |w| ==> !IsSeparator(w[k])
    ensures PascalChars(w, atStart) == if atStart then Capitalize(w) else w
    decreases |w|
  {
    if |w| != 0 {
      PlainWordPascal(w[1..], false);
    }
  }

  lemma {:induction false} PascalAppendWord(w: string, t: string, atStart: bool)
    requires forall k :: 0 <= k < |w| ==> !IsSeparator(w[k])
    ensures PascalChars(w + t, atStart) == PascalChars(w, atStart) + PascalChars(t, atStart && |w| == 0)
    decreases |w|
  {
    if |w| == 0 {
      assert w + t == t;
    } else {
      assert (w + t)[0] == w[0];
      assert (w + t)[1..] == w[1..] + t;
      PascalAppendWord(w[1..], t, false);
    }
  }

  lemma {:induction false} PascalSkipsSeparators(t: string, atStart: bool)
    requires |t| > 0 && IsSeparator(t[0])
    ensures PascalChars(t, atStart) == PascalChars(DropSeparators(t), true)
    decreases |t|
  {
    if |t[1..]| > 0 && IsSeparator(t[1..][0]) {
      PascalSkipsSeparators(t[1..], true);
    }
  }

  /** Two words around one separator become the two words capitalised and run together. */
  lemma TwoWordPascal(w: string, c: char, v: string)
    requires IsSeparator(c)
    requires forall k :: 0 <= k < |w| ==> !IsSeparator(w[k])
    requires forall k :: 0 <= k < |v| ==> !IsSeparator(v[k])
    ensures PascalChars(w + [c] + v, true) == Capitalize(w) + Capitalize(v)
  {
    assert w + [c] + v == w + ([c] + v);
    PascalAppendWord(w, [c] + v, true);
    PascalSkipsSeparators([c] + v, |w| == 0);
    if |v| > 0 {
      assert DropSeparators([c] + v) == v;
    } else {
      assert DropSeparators([c] + v) == [];
    }
    PlainWordPascal(w, true);
    PlainWordPascal(v, true);
  }

  /** A string without separators goes through the pipeline as one capitalised word. */
  lemma PascalCaseOfWord(s: string)
    requires FirstSeparator(s) == |s|
    ensures CapitalizeAndJoin(Filter(NonEmpty, SplitOnSeparators(s))) == PascalChars(s, true)
  {
    var parts := SplitOnSeparators(s);
    assert parts == [s];
    assert forall k :: 0 <= k < |s| ==> !IsSeparator(s[k]);
    PlainWordPascal(s, true);
    if |s| == 0 {
      assert Filter(NonEmpty, parts) == Filter(NonEmpty, parts[1..]);
    } else {
      assert Filter(NonEmpty, parts) == [s] + Filter(NonEmpty, parts[1..]);
      assert CapitalizeAndJoin([s]) == Capitalize(s) + "";
    }
  }

  /** The source's split/filter/map/join pipeline equals the character-level reading. */
  lemma {:induction false} PascalCaseIsCharLevel(s: string)
    ensures CapitalizeAndJoin(Filter(NonEmpty, SplitOnSeparators(s))) == PascalChars(s, true)
    decreases |s|
  {
    var i := FirstSeparator(s);
    var parts := SplitOnSeparators(s);
    if i == |s| {
      PascalCaseOfWord(s);
    } else {
      SplitStepJoin(s);
      SplitStepChars(s);
      PascalCaseIsCharLevel(DropSeparators(s[i..]));
    }
  }

  /** One step of the pipeline at the first separator: the word before it is capitalised, the run after it dropped. */
  lemma SplitStepJoin(s: string)
    requires FirstSeparator(s) < |s|
    ensures var i := FirstSeparator(s);
            CapitalizeAndJoin(Filter(NonEmpty, SplitOnSeparators(s)))
            == Capitalize(s[..i]) + CapitalizeAndJoin(Filter(NonEmpty, SplitOnSeparators(DropSeparators(s[i..]))))
  {
    var i := FirstSeparator(s);
    var parts := SplitOnSeparators(s);
    var w := s[..i];
    assert parts == [w] + SplitOnSeparators(DropSeparators(s[i..]));
    if |w| == 0 {
      assert Filter(NonEmpty, parts) == Filter(NonEmpty, parts[1..]);
    } else {
      assert Filter(NonEmpty, parts) == [w] + Filter(NonEmpty, parts[1..]);
    }
  }

  /** The same step of the character-level reading. */
  lemma SplitStepChars(s: string)
    requires FirstSeparator(s) < |s|
    ensures var i := FirstSeparator(s);
            PascalChars(s, true) == Capitalize(s[..i]) + PascalChars(DropSeparators(s[i..]), true)
  {
    var i := FirstSeparator(s);
    var w := s[..i];
    assert s == w + s[i..];
    PascalAppendWord(w, s[i..], true);
    PascalSkipsSeparators(s[i..], |w| == 0);
    PlainWordPascal(w, true);
  }

  /**
   `singularize`: the first matching rule of `ies` → `y`, `ses` → drop `es`,
   a trailing `s` not after another `s` → drop it. Never lengthens the slug,
   leaves a slug not ending in `s` alone, and otherwise keeps a prefix of the
   slug (followed by `y` for the `ies` rule).
   */
  function Singularize(slug: string): (r: string)
    ensures |r| <= |slug|
    ensures !EndsWith(slug, "s") ==> r == slug
    ensures EndsWith(slug, "ies") ==> r == slug[..|slug| - 3] + "y"
    ensures !EndsWith(slug, "ies") ==> r == slug[..|r|]
    ensures |slug| - |r| <= 2
    ensures EndsWith(slug, "ses") ==> r == slug[..|slug| - 2]
    ensures EndsWith(slug, "ss") ==> r == slug
    ensures EndsWith(slug, "s") && !EndsWith(slug, "ss") && !EndsWith(slug, "ies") && !EndsWith(slug, "ses") ==>
              r == slug[..|slug| - 1]
  {
    if EndsWith(slug, "ies") then
      assert slug[|slug| - 2] == slug[|slug| - 3..][1] == 'e';
      slug[..|slug| - 3] + "y"
    else if EndsWith(slug, "ses") then
      assert slug[|slug| - 2] == slug[|slug| - 3..][1] == 'e';
      slug[..|slug| - 2]
    else if EndsWith(slug, "s") && !EndsWith(slug, "ss") then slug[..|slug| - 1]
    else slug
  }

  predicate IsVowel(c: char)
  {
    c == 'a' || c == 'e' || c == 'i' || c == 'o' || c == 'u'
  }

  /** Regular English plurals: consonant + `y` → `ies`, `s` → `ses`, otherwise add `s`. */
  function Pluralize(w: string): string
  {
    if |w| >= 2 && w[|w| - 1] == 'y' && !IsVowel(w[|w| - 2]) then w[..|w| - 1] + "ies"
    else if EndsWith(w, "s") then w + "es"
    else w + "s"
  }

  /**
   Singularising undoes regular pluralisation, except for words ending in
   `ie` or `se`, whose plurals the suffix rules misread (see the next lemma).
   */
  lemma SingularizeUndoesPluralize(w: string)
    requires !EndsWith(w, "ie") && !EndsWith(w, "se")
    ensures Singularize(Pluralize(w)) == w
  {
    var n := |w|;
    if n >= 2 && w[n - 1] == 'y' && !IsVowel(w[n - 2]) {
      SingularOfIes(w[..n - 1]);
      assert w[..n - 1] + "y" == w;
    } else if EndsWith(w, "s") {
      SingularOfSes(w);
    } else {
      SingularOfPlainS(w);
    }
  }

  lemma SingularOfIes(stem: string)
    ensures Singularize(stem + "ies") == stem + "y"
  {
    var p := stem + "ies";
    assert p[|p| - 3..] == "ies";
    assert p[..|p| - 3] == stem;
  }

  lemma SingularOfSes(w: string)
    requires EndsWith(w, "s")
    ensures Singularize(w + "es") == w
  {
    var p := w + "es";
    assert p[|p| - 3..] == "ses";
    assert p[..|p| - 2] == w;
  }

  lemma SingularOfPlainS(w: string)
    requires !EndsWith(w, "ie") && !EndsWith(w, "se") && !EndsWith(w, "s")
    ensures Singularize(w + "s") == w
  {
    var p := w + "s";
    var n := |w|;
    assert p[|p| - 1..] == "s";
    if n >= 2 {
      assert p[|p| - 3..] == w[n - 2..] + "s";
    }
    if n >= 1 {
      assert p[|p| - 2..] == w[n - 1..] + "s";
    }
    assert p[..|p| - 1] == w;
  }

  /** The words the suffix rules misread: `movies` → `movy`, `courses` → `cours`. */
  lemma SingularizeMisreadsIeAndSe()
    ensures Singularize(Pluralize("movie")) == "movy"
    ensures Singularize(Pluralize("course")) == "cours"
  {
    assert Pluralize("movie") == "movies";
    assert EndsWith("movies", "ies");
    assert Pluralize("course") == "courses";
    assert !EndsWith("courses", "ies") && EndsWith("courses", "ses");
  }

  /** Where an auto-discovered resource comes from. */
  datatype AutoDiscoverSource = CollectionSource | GlobalSource

  /** The argument of `formatPermission`. */
  datatype AutoDiscoverContext = AutoDiscoverContext(action: string, slug: string, source: AutoDiscoverSource)

  /** `toPascalCase(singularize(slug))`: no separators, and never longer than the slug. */
  function EntityName(slug: string): (r: string)
    ensures |r| <= |slug|
    ensures forall k :: 0 <= k < |r| ==> !IsSeparator(r[k])
  {
    var s := Singularize(slug);
    NonSeparatorCountBound(s);
    ToPascalCase(s)
  }

  lemma {:induction false} NonSeparatorCountBound(s: string)
    ensures NonSeparatorCount(s) <= |s|
    decreases |s|
  {
    if |s| != 0 {
      NonSeparatorCountBound(s[1..]);
    }
  }

  /**
   `defaultPermissionFormatter`: the action, a colon, then the entity name,
   with `Global:` in front of the entity for a global. What the text means is
   stated by `ActionReadsBack` and `DefaultFormattersAgree`.
   */
  function DefaultPermissionFormatter(ctx: AutoDiscoverContext): (r: string)
    ensures ctx.source == CollectionSource ==> r == ctx.action + ":" + EntityName(ctx.slug)
    ensures ctx.source == GlobalSource ==> r == ctx.action + ":Global:" + EntityName(ctx.slug)
    ensures |ctx.action| < |r| <= |ctx.action| + 8 + |ctx.slug|
  {
    var entity := EntityName(ctx.slug);
    if ctx.source == CollectionSource then ctx.action + ":" + entity
    else ctx.action + ":Global:" + entity
  }

  /**
   `defaultGroupLabelFormatter`: the entity name for a collection, and the
   entity name after `Global ` for a global. `DefaultFormattersAgree` relates
   it to the permission text.
   */
  function DefaultGroupLabelFormatter(slug: string, source: AutoDiscoverSource): (r: string)
    ensures source == CollectionSource ==> r == EntityName(slug)
    ensures source == GlobalSource ==> r == "Global " + EntityName(slug)
    ensures |r| <= 7 + |slug|
  {
    var entity := EntityName(slug);
    if source == CollectionSource then entity else "Global " + entity
  }

  /**
   The two default formatters agree: a collection's permission is
   `action:label`; a global's label is `Global E` and its permission is
   `action:Global:E`, for the same entity name `E`.
   */
  lemma DefaultFormattersAgree(action: string, slug: string, source: AutoDiscoverSource)
    ensures source == CollectionSource ==>
              DefaultPermissionFormatter(AutoDiscoverContext(action, slug, source))
              == action + ":" + DefaultGroupLabelFormatter(slug, source)
    ensures source == GlobalSource ==>
              var text := DefaultGroupLabelFormatter(slug, source);
              && |text| >= 7 && text[..7] == "Global "
              && DefaultPermissionFormatter(AutoDiscoverContext(action, slug, source))
                 == action + ":Global:" + text[7..]
  {
    if source == GlobalSource {
      var text := DefaultGroupLabelFormatter(slug, source);
      assert text == "Global " + EntityName(slug);
      assert text[7..] == EntityName(slug);
    }
  }

  /** The text before the first `:` of a permission string. */
  function ActionPart(permission: string): string
  {
    if ':' in permission then permission[..FirstIndex(permission, ':')] else permission
  }

  /** The action can be read back from a default permission string when it has no `:` itself. */
  lemma ActionReadsBack(ctx: AutoDiscoverContext)
    requires ':' !in ctx.action
    ensures ActionPart(DefaultPermissionFormatter(ctx)) == ctx.action
  {
    var p := DefaultPermissionFormatter(ctx);
    var n := |ctx.action|;
    assert p[n] == ':';
    assert p[..n] == ctx.action;
  }
}
