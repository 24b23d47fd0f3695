/** What the two client translation helpers share: the key lookup with
    fallback to the key, and the two ways of filling `{{name}}`
    placeholders — `String.prototype.replace` with a string pattern (first
    occurrence only) and with a global regular expression (every
    occurrence, scanning left to right). */
module Translation {
  import opened Wrappers

  /** One language's strings, by key. */
  type Dictionary = map<string, string>

  /** One interpolation parameter, already converted with `String(...)`. */
  datatype Param = Param(name: string, value: string)

  /** `table[key] || key`: a missing or empty entry yields the key. */
  function Lookup(table: Dictionary, key: string): (text: string)
    ensures key in table && table[key] != "" ==> text == table[key]
    ensures !(key in table && table[key] != "") ==> text == key
  {
    if key in table && table[key] != "" then table[key] else key
  }

  function Placeholder(name: string): string
  {
    "{{" + name + "}}"
  }

  /** `pat` occurs in `text` starting at position `i`. */
  predicate OccursAt(text: string, pat: string, i: nat)
  {
    i + |pat| <= |text| && text[i..i + |pat|] == pat
  }

  /** The first position at or after `from` where `pat` occurs. */
  function IndexFrom(text: string, pat: string, from: nat): (r: Option<nat>)
    ensures r.Some? ==> from <= r.value && OccursAt(text, pat, r.value)
    ensures r.Some? ==> forall j :: from <= j < r.value ==> !OccursAt(text, pat, j)
    ensures r.None? ==> forall j: nat :: from <= j ==> !OccursAt(text, pat, j)
    decreases |text| - from
  {
    if |text| < from + |pat| then None
    else if OccursAt(text, pat, from) then Some(from)
    else IndexFrom(text, pat, from + 1)
  }

  /** `text.indexOf(pat)`, as an option. */
  function IndexOf(text: string, pat: string): (r: Option<nat>)
    ensures r.Some? ==> OccursAt(text, pat, r.value)
    ensures r.Some? ==> forall j :: 0 <= j < r.value ==> !OccursAt(text, pat, j)
    ensures r.None? ==> forall j: nat :: !OccursAt(text, pat, j)
  {
    IndexFrom(text, pat, 0)
  }

  /** `text.replace(pat, value)` with a string pattern: the first
      occurrence, if any, is replaced; the rest of the text is kept. */
  function ReplaceFirst(text: string, pat: string, value: string): (r: string)
    ensures IndexOf(text, pat).None? ==> r == text
    ensures IndexOf(text, pat).Some? ==>
      var i := IndexOf(text, pat).value;
      r == text[..i] + value + text[i + |pat|..]
  {
    match IndexOf(text, pat)
    case None => text
    case Some(i) => text[..i] + value + text[i + |pat|..]
  }

  /** `text.replace(new RegExp(pat, 'g'), value)` for a pattern that
      matches only itself: scan left to right, replace each match and
      resume after it. */
  function ReplaceAll(text: string, pat: string, value: string): (r: string)
    requires pat != []
    ensures value == pat ==> r == text
    ensures |value| == |pat| ==> |r| == |text|
    decreases |text|
  {
    if |text| < |pat| then text
    else if text[..|pat|] == pat then
      assert text == text[..|pat|] + text[|pat|..];
      value + ReplaceAll(text[|pat|..], pat, value)
    else
      assert text == [text[0]] + text[1..];
      [text[0]] + ReplaceAll(text[1..], pat, value)
  }

  /** A prefix in which `pat` starts nowhere passes through the global
      replacement unchanged. */
  lemma {:induction false} ReplaceAllSkips(text: string, pat: string, value: string, i: nat)
    requires pat != [] && i <= |text|
    requires forall j :: 0 <= j < i ==> !OccursAt(text, pat, j)
    ensures ReplaceAll(text, pat, value) == text[..i] + ReplaceAll(text[i..], pat, value)
    decreases i
  {
    if i == 0 {
      assert text[..0] + text[0..] == text;
    } else if |text| < |pat| {
      assert text[..i] + text[i..] == text;
    } else {
      var rest := text[1..];
      assert !OccursAt(text, pat, 0);
      assert text[0..|pat|] == text[..|pat|];
      forall j | 0 <= j < i - 1
        ensures !OccursAt(rest, pat, j)
      {
        assert !OccursAt(text, pat, j + 1);
        if j + |pat| <= |rest| {
          assert rest[j..j + |pat|] == text[j + 1..j + 1 + |pat|];
        }
      }
      ReplaceAllSkips(rest, pat, value, i - 1);
      assert rest[i - 1..] == text[i..];
      assert [text[0]] + rest[..i - 1] == text[..i];
    }
  }

  /** Where `pat` occurs nowhere, the global replacement changes nothing. */
  lemma ReplaceAllNoMatch(text: string, pat: string, value: string)
    requires pat != []
    requires forall j :: 0 <= j < |text| ==> !OccursAt(text, pat, j)
    ensures ReplaceAll(text, pat, value) == text
  {
    ReplaceAllSkips(text, pat, value, |text|);
    assert text[..|text|] == text && text[|text|..] == [];
  }

  /** Where `pat` occurs, the global replacement substitutes `value`
      and resumes after it. */
  lemma ReplaceAllAtMatch(text: string, pat: string, value: string, i: nat)
    requires pat != [] && OccursAt(text, pat, i)
    ensures ReplaceAll(text[i..], pat, value) == value + ReplaceAll(text[i + |pat|..], pat, value)
  {
    var at, after := text[i..], text[i + |pat|..];
    assert at[..|pat|] == pat && at[|pat|..] == after by {
      assert at[..|pat|] == text[i..i + |pat|];
    }
  }

  /** At the first occurrence, the global replacement substitutes `value`
      and resumes after it. */
  lemma ReplaceAllAtFirst(text: string, pat: string, value: string, i: nat)
    requires pat != [] && OccursAt(text, pat, i)
    requires forall j :: 0 <= j < i ==> !OccursAt(text, pat, j)
    ensures ReplaceAll(text, pat, value) == text[..i] + value + ReplaceAll(text[i + |pat|..], pat, value)
  {
    ReplaceAllAtMatch(text, pat, value, i);
    ReplaceAllSkips(text, pat, value, i);
  }

  /** The global replacement does what the first-occurrence replacement
      does and then carries on after the replaced occurrence; with no
      occurrence it leaves the text alone. */
  lemma ReplaceAllContinues(text: string, pat: string, value: string)
    requires pat != []
    ensures IndexOf(text, pat).None? ==> ReplaceAll(text, pat, value) == text
    ensures IndexOf(text, pat).Some? ==>
      var i := IndexOf(text, pat).value;
      ReplaceAll(text, pat, value) == text[..i] + value + ReplaceAll(text[i + |pat|..], pat, value)
  {
    match IndexOf(text, pat)
    case None =>
      ReplaceAllNoMatch(text, pat, value);
    case Some(i) =>
      ReplaceAllAtFirst(text, pat, value, i);
  }

  /** When the placeholder occurs at most once, the two replacements agree. */
  lemma ReplaceOnceAgrees(text: string, pat: string, value: string)
    requires pat != []
    requires IndexOf(text, pat).Some? ==> IndexOf(text[IndexOf(text, pat).value + |pat|..], pat).None?
    ensures ReplaceAll(text, pat, value) == ReplaceFirst(text, pat, value)
  {
    ReplaceAllContinues(text, pat, value);
    if IndexOf(text, pat).Some? {
      var i := IndexOf(text, pat).value;
      ReplaceAllContinues(text[i + |pat|..], pat, value);
    }
  }

  /** A text without `{{` contains no placeholder either. */
  lemma NoBracesNoPlaceholder(text: string, name: string)
    requires IndexOf(text, "{{").None?
    ensures IndexOf(text, Placeholder(name)).None?
  {
    var p := Placeholder(name);
    forall i: nat | OccursAt(text, p, i) ensures OccursAt(text, "{{", i) {
      assert text[i..i + 2] == p[..2];
    }
  }

  /** i18n.ts: each parameter in turn replaces the first occurrence of its
      placeholder in the text produced so far. */
  function InterpolateFirst(text: string, params: seq<Param>): string
    decreases |params|
  {
    if params == [] then text
    else InterpolateFirst(ReplaceFirst(text, Placeholder(params[0].name), params[0].value), params[1..])
  }

  /** useTranslation.tsx: each parameter in turn replaces every occurrence
      of its placeholder in the text produced so far. */
  function InterpolateAll(text: string, params: seq<Param>): string
    decreases |params|
  {
    if params == [] then text
    else InterpolateAll(ReplaceAll(text, Placeholder(params[0].name), params[0].value), params[1..])
  }

  /** A template without `{{` comes back unchanged, whatever the
      parameters, under both interpolations. */
  lemma {:induction false} NoPlaceholdersUnchanged(text: string, params: seq<Param>)
    requires IndexOf(text, "{{").None?
    ensures InterpolateFirst(text, params) == text
    ensures InterpolateAll(text, params) == text
    decreases |params|
  {
    if params != [] {
      NoBracesNoPlaceholder(text, params[0].name);
      ReplaceAllContinues(text, Placeholder(params[0].name), params[0].value);
      NoPlaceholdersUnchanged(text, params[1..]);
    }
  }
}
