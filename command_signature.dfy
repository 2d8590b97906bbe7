/**
 * The signature parser of the `adonis-command` pass.  A v4 command announces
 * itself as `name {arg} {arg?} {--flag=default: description}`; the pass reads
 * the command name, finds each `{...}` group and parses it into a field.  The
 * three regular expressions the source uses are written out here as string
 * functions: `/(.+)=(.+)/` for a default value, `\s*({|:|=|})\s*` (global) for
 * the white space around delimiters, and `/{(-*.[^}]+)}/g` for the groups.
 */
module CommandSignature {
  import opened Ast
  import opened Strings

  /** One parsed `{...}` group. */
  datatype Field = Field(optional: bool, defaultValue: Option<string>, name: string, description: string)

  /** `extractOptional`: a trailing `?` marks the field optional and is removed. */
  function ExtractOptional(field: string): (r: (string, bool))
    ensures r.1 <==> EndsWith(field, "?")
    ensures field == r.0 + (if r.1 then "?" else "")
  {
    if EndsWith(field, "?") then (field[..|field| - 1], true) else (field, false)
  }

  /** What `.` in a JavaScript regular expression does not match. */
  predicate IsLineTerminator(c: char) {
    c == '\n' || c == '\r' || c == '\U{2028}' || c == '\U{2029}'
  }

  /** The end of the line that starts at `i`. */
  function LineEnd(s: string, i: nat): (e: nat)
    requires i <= |s|
    ensures i <= e <= |s| && (e < |s| ==> IsLineTerminator(s[e]))
    ensures forall j :: i <= j < e ==> !IsLineTerminator(s[j])
    decreases |s| - i
  {
    if i == |s| || IsLineTerminator(s[i]) then i else LineEnd(s, i + 1)
  }

  /** The last `=` of `s[a..e]` with at least one character of the line on each side. */
  function LastEq(s: string, a: nat, e: nat): (r: Option<nat>)
    requires a <= e <= |s|
    ensures r.Some? ==> a < r.value < e - 1 && s[r.value] == '=' && forall j :: r.value < j < e - 1 ==> s[j] != '='
    ensures r.None? ==> forall j :: a < j < e - 1 ==> s[j] != '='
    decreases e
  {
    if e < a + 3 then None
    else if s[e - 2] == '=' then Some(e - 2)
    else LastEq(s, a, e - 1)
  }

  /**
   * Where `/(.+)=(.+)/` matches, as (start, position of `=`, end): the first line
   * that has such an `=`, whole, split at its last one (both `.+` are greedy).
   */
  function DefaultMatch(s: string, from: nat): (r: Option<(nat, nat, nat)>)
    requires from <= |s|
    ensures r.Some? ==> from <= r.value.0 < r.value.1 < r.value.2 - 1 && r.value.2 <= |s| && s[r.value.1] == '='
    decreases |s| - from
  {
    var e := LineEnd(s, from);
    match LastEq(s, from, e)
    case Some(i) => Some((from, i, e))
    case None => if e < |s| then DefaultMatch(s, e + 1) else None
  }

  /** `field.replace(/(.+)=(.+)/, ...)`: the matched text becomes its trimmed left part; the trimmed right part is the default. */
  function SplitDefault(field: string): (string, Option<string>) {
    var m := DefaultMatch(field, 0);
    if m.None? then (field, None) else SplitAt(field, m.value.0, m.value.1, m.value.2)
  }

  function SplitAt(field: string, a: nat, i: nat, e: nat): (string, Option<string>)
    requires a < i < e <= |field|
  {
    (field[..a] + Trim(field[a..i]) + field[e..], Some(Trim(field[i + 1..e])))
  }

  /** `extractDefaultValue`, whose replacement callback records the default as it rewrites the field. */
  method ExtractDefaultValue(field: string) returns (rest: string, defaultValue: Option<string>)
    ensures (rest, defaultValue) == SplitDefault(field)
  {
    rest, defaultValue := field, None;
    var m := DefaultMatch(field, 0);
    if m.Some? {
      var replaced := SplitAt(field, m.value.0, m.value.1, m.value.2);
      rest, defaultValue := replaced.0, replaced.1;
    }
  }

  /** `field.split(':')` read as `[before, description]`: the text before the first `:` and the text up to the next one. */
  function SplitDescription(field: string): (string, string) {
    var i := IndexOf(field, ":");
    if i < 0 then (field, "")
    else
      var after := field[i + 1..];
      var j := IndexOf(after, ":");
      (field[..i], if j < 0 then after else after[..j])
  }

  /** `parseField`: the description comes off first, then the default, then the `?`. */
  function ParseField(field: string): Field {
    var (head, description) := SplitDescription(field);
    var (rest, defaultValue) := SplitDefault(head);
    var (name, optional) := ExtractOptional(rest);
    Field(optional, defaultValue, name, Trim(description))
  }

  // ---------------------------------------------------------------- the signature string

  /** `returnValue.trim().split(' ')` read as `[name, ...tokens]`, with the tokens joined again by `' '`. */
  function SignatureParts(signature: string): (string, string) {
    var t := Trim(signature);
    var i := IndexOf(t, " ");
    if i < 0 then (t, "") else (t[..i], t[i + 1..])
  }

  function CommandName(signature: string): string {
    Trim(SignatureParts(signature).0)
  }

  predicate IsDelimiter(c: char) {
    c == '{' || c == ':' || c == '=' || c == '}'
  }

  /** Past the white space before position `i` stands a delimiter. */
  predicate DelimiterBefore(s: string, i: nat)
    requires i <= |s|
  {
    i > 0 && if IsSpace(s[i - 1]) then DelimiterBefore(s, i - 1) else IsDelimiter(s[i - 1])
  }

  /** Past the white space from position `i` on stands a delimiter. */
  predicate DelimiterAfter(s: string, i: nat)
    decreases |s| - i
  {
    i < |s| && if IsSpace(s[i]) then DelimiterAfter(s, i + 1) else IsDelimiter(s[i])
  }

  /** The global replacement of `\s*({|:|=|})\s*` by `$1` on `s[i..]`: white space touching a delimiter is dropped. */
  function StripAround(s: string, i: nat): string
    decreases |s| - i
  {
    if i >= |s| then []
    else (if IsSpace(s[i]) && (DelimiterBefore(s, i) || DelimiterAfter(s, i)) then [] else [s[i]]) + StripAround(s, i + 1)
  }

  /** The first `}` from position `i`. */
  function CloseFrom(s: string, i: nat): (r: Option<nat>)
    ensures r.Some? ==> i <= r.value < |s| && s[r.value] == '}' && forall j :: i <= j < r.value ==> s[j] != '}'
    ensures r.None? ==> forall j :: i <= j < |s| ==> s[j] != '}'
    decreases |s| - i
  {
    if i >= |s| then None else if s[i] == '}' then Some(i) else CloseFrom(s, i + 1)
  }

  /** The number of `-` from position `i`. */
  function Dashes(s: string, i: nat): (n: nat)
    requires i <= |s|
    ensures i + n <= |s|
    decreases |s| - i
  {
    if i < |s| && s[i] == '-' then 1 + Dashes(s, i + 1) else 0
  }

  /**
   * `-*.[^}]+}` from position `c0` with `d` dashes taken, backing off one dash
   * at a time: the position of the closing `}`.
   */
  function TryDashes(s: string, c0: nat, d: nat): (r: Option<nat>)
    requires c0 + d <= |s|
    ensures r.Some? ==> c0 + 2 <= r.value < |s| && s[r.value] == '}'
    decreases d
  {
    var c := c0 + d;
    if c + 1 < |s| && !IsLineTerminator(s[c]) && s[c + 1] != '}' && CloseFrom(s, c + 1).Some? then CloseFrom(s, c + 1)
    else if d == 0 then None
    else TryDashes(s, c0, d - 1)
  }

  /** The first match of `/{(-*.[^}]+)}/` from position `from`: the positions of its `{` and `}`. */
  function NextGroup(s: string, from: nat): (r: Option<(nat, nat)>)
    ensures r.Some? ==> from <= r.value.0 && r.value.0 + 3 <= r.value.1 < |s|
    ensures r.Some? ==> s[r.value.0] == '{' && s[r.value.1] == '}'
    decreases |s| - from
  {
    if from >= |s| then None
    else if s[from] == '{' && TryDashes(s, from + 1, Dashes(s, from + 1)).Some? then
      Some((from, TryDashes(s, from + 1, Dashes(s, from + 1)).value))
    else NextGroup(s, from + 1)
  }

  /** The text inside each successive match, from position `from` on. */
  function Groups(s: string, from: nat): seq<string>
    decreases |s| - from
  {
    match NextGroup(s, from)
    case None => []
    case Some((b, e)) => [s[b + 1..e]] + Groups(s, e + 1)
  }

  /** The tokens after the command name, as the loop reads them. */
  function SignatureGroups(signature: string): seq<string> {
    var rest := SignatureParts(signature).1;
    Groups(StripAround(rest, 0), 0)
  }

  /** The groups that start with `-` (`dash`) or do not, in order. */
  /** `startsWith('-')` */
  predicate IsDashed(g: string) {
    |g| > 0 && g[0] == '-'
  }

  function OfKind(groups: seq<string>, dash: bool): seq<string> {
    if groups == [] then []
    else (if IsDashed(groups[0]) == dash then [groups[0]] else []) + OfKind(groups[1..], dash)
  }

  function ParseAll(groups: seq<string>): (r: seq<Field>)
    ensures |r| == |groups|
  {
    seq(|groups|, i requires 0 <= i < |groups| => ParseField(groups[i]))
  }

  lemma ParseAllAppend(a: seq<string>, b: seq<string>)
    ensures ParseAll(a + b) == ParseAll(a) + ParseAll(b)
  {
    forall i | 0 <= i < |a + b|
      ensures ParseAll(a + b)[i] == (ParseAll(a) + ParseAll(b))[i]
    {
      if i < |a| {
        assert (a + b)[i] == a[i];
      } else {
        assert (a + b)[i] == b[i - |a|];
      }
    }
  }

  lemma {:induction false} OfKindAppend(a: seq<string>, b: seq<string>, dash: bool)
    ensures OfKind(a + b, dash) == OfKind(a, dash) + OfKind(b, dash)
  {
    if a == [] {
      assert a + b == b;
    } else {
      assert (a + b)[0] == a[0] && (a + b)[1..] == a[1..] + b;
      OfKindAppend(a[1..], b, dash);
    }
  }

  lemma {:induction false} GroupsStep(s: string, from: nat, b: nat, e: nat)
    requires NextGroup(s, from) == Some((b, e))
    ensures b + 1 <= e <= |s| && Groups(s, from) == [s[b + 1..e]] + Groups(s, e + 1)
  {
  }

  lemma {:induction false} ParseStep(seen: seq<string>, g: string, dash: bool)
    ensures ParseAll(OfKind(seen + [g], dash)) ==
      ParseAll(OfKind(seen, dash)) + (if IsDashed(g) == dash then [ParseField(g)] else [])
  {
    OfKindAppend(seen, [g], dash);
    assert [g][1..] == [];
    assert OfKind([g], dash) == (if IsDashed(g) == dash then [g] else []);
    ParseAllAppend(OfKind(seen, dash), OfKind([g], dash));
    assert ParseAll([g]) == [ParseField(g)];
  }

  /** One turn of the `exec` loop: the match joins the groups seen. */
  lemma TokenStep(text: string, lastIndex: nat, seen: seq<string>, b: nat, e: nat)
    requires NextGroup(text, lastIndex) == Some((b, e))
    requires Groups(text, 0) == seen + Groups(text, lastIndex)
    ensures b + 1 <= e <= |text|
    ensures Groups(text, 0) == (seen + [text[b + 1..e]]) + Groups(text, e + 1)
  {
    GroupsStep(text, lastIndex, b, e);
    ConsAssoc(seen, text[b + 1..e], Groups(text, e + 1));
  }

  lemma {:induction false} ConsAssoc(a: seq<string>, x: string, c: seq<string>)
    ensures a + ([x] + c) == (a + [x]) + c
  {
  }

  /** The `exec` loop: each match is parsed and pushed onto the options when it starts with `-`, else onto the arguments. */
  method ParseTokens(text: string) returns (args: seq<Field>, options: seq<Field>)
    ensures args == ParseAll(OfKind(Groups(text, 0), false)) && options == ParseAll(OfKind(Groups(text, 0), true))
  {
    args, options := [], [];
    ghost var seen: seq<string> := [];
    var lastIndex := 0;
    var m := NextGroup(text, lastIndex);
    while m.Some?
      invariant m == NextGroup(text, lastIndex)
      invariant Groups(text, 0) == seen + Groups(text, lastIndex)
      invariant args == ParseAll(OfKind(seen, false)) && options == ParseAll(OfKind(seen, true))
      decreases |text| + 1 - lastIndex
    {
      var b, e := m.value.0, m.value.1;
      TokenStep(text, lastIndex, seen, b, e);
      args, options := PushToken(seen, text[b + 1..e], args, options);
      seen := seen + [text[b + 1..e]];
      lastIndex := e + 1;
      m := NextGroup(text, lastIndex);
    }
    assert seen + [] == seen;
  }

  /** The match parsed and pushed onto the options when it starts with `-`, else onto the arguments. */
  method PushToken(ghost seen: seq<string>, matched: string, args: seq<Field>, options: seq<Field>) returns (args': seq<Field>, options': seq<Field>)
    requires args == ParseAll(OfKind(seen, false)) && options == ParseAll(OfKind(seen, true))
    ensures args' == ParseAll(OfKind(seen + [matched], false)) && options' == ParseAll(OfKind(seen + [matched], true))
  {
    ParseStep(seen, matched, false);
    ParseStep(seen, matched, true);
    args', options' := args, options;
    var field := ParseField(matched);
    if IsDashed(matched) {
      options' := options + [field];
      assert args' == args + [];
    } else {
      args' := args + [field];
      assert options' == options + [];
    }
  }

  // ---------------------------------------------------------------- properties

  /** On one line without an `=` that has a character on each side, there is no default and the field is kept whole. */
  lemma {:induction false} NoInnerEqualsNoDefault(field: string)
    requires forall j :: 0 <= j < |field| ==> !IsLineTerminator(field[j])
    requires forall j :: 0 < j < |field| - 1 ==> field[j] != '='
    ensures SplitDefault(field) == (field, None)
  {
    var n: nat := |field|;
    assert LineEnd(field, 0) == n;
    assert LastEq(field, 0, n).None?;
  }

  /** On one line, the default is what follows the last `=` that has a character on each side, and the name what precedes it. */
  lemma {:induction false} DefaultAfterLastEquals(field: string, j: nat)
    requires forall k :: 0 <= k < |field| ==> !IsLineTerminator(field[k])
    requires 0 < j < |field| - 1 && field[j] == '='
    requires forall k :: j < k < |field| - 1 ==> field[k] != '='
    ensures SplitDefault(field) == (Trim(field[..j]), Some(Trim(field[j + 1..])))
  {
    var n: nat := |field|;
    assert LineEnd(field, 0) == n;
    assert LastEq(field, 0, n) == Some(j);
    assert DefaultMatch(field, 0) == Some((0, j, n));
    assert field[..0] == [] && field[n..] == [] && field[0..j] == field[..j] && field[j + 1..n] == field[j + 1..];
    assert SplitDefault(field) == SplitAt(field, 0, j, n);
    var t := Trim(field[0..j]);
    assert field[..0] + t + field[n..] == t;
  }

  /** Without an `=` there is no default and the field is kept whole. */
  lemma NoEqualsNoDefault(field: string)
    requires forall j :: 0 <= j < |field| ==> field[j] != '='
    ensures SplitDefault(field) == (field, None)
  {
  }

  /** Trimming keeps only characters of its input. */
  lemma {:induction false} TrimSubset(s: string, c: char)
    requires c in Trim(s)
    ensures c in s
  {
    TrimStartSuffix(s);
    TrimEndPrefix(TrimStart(s));
  }

  lemma {:induction false} SplitDefaultSubset(field: string, c: char)
    ensures c in SplitDefault(field).0 ==> c in field
    ensures SplitDefault(field).1.Some? && c in SplitDefault(field).1.value ==> c in field
  {
    var m := DefaultMatch(field, 0);
    if m.Some? {
      var (a, i, e) := m.value;
      if c in Trim(field[a..i]) { TrimSubset(field[a..i], c); }
      if c in Trim(field[i + 1..e]) { TrimSubset(field[i + 1..e], c); }
      assert c in SplitDefault(field).0 ==> c in field[..a] || c in Trim(field[a..i]) || c in field[e..];
    }
  }

  lemma {:induction false} SplitDescriptionNoColon(field: string)
    ensures ':' !in SplitDescription(field).0 && ':' !in SplitDescription(field).1
  {
    IndexOfChar(field, ':');
    var i := IndexOf(field, ":");
    if i >= 0 {
      IndexOfChar(field[i + 1..], ':');
    }
  }


  /**
   * The description is split off first: a `:` ends the name and the default,
   * and none of the three parts keeps one; the description is trimmed.
   */
  lemma {:induction false} ColonEndsEveryPart(field: string)
    ensures var f := ParseField(field);
      ':' !in f.name && ':' !in f.description && (f.defaultValue.Some? ==> ':' !in f.defaultValue.value)
    ensures var f := ParseField(field); f.description == [] || (!IsSpace(f.description[0]) && !IsSpace(f.description[|f.description| - 1]))
  {
    var (head, description) := SplitDescription(field);
    SplitDescriptionNoColon(field);
    SplitDefaultSubset(head, ':');
    var f := ParseField(field);
    if ':' in f.description { TrimSubset(description, ':'); }
    var rest := SplitDefault(head).0;
    assert rest == f.name + (if f.optional then "?" else "");
    assert ':' in f.name ==> ':' in rest;
  }

  /** Every group spans at least two characters. */
  lemma {:induction false} GroupsAtLeastTwo(s: string, from: nat)
    ensures forall g :: g in Groups(s, from) ==> |g| >= 2
    decreases |s| - from
  {
    match NextGroup(s, from)
    case None =>
    case Some((b, e)) =>
      GroupsStep(s, from, b, e);
      GroupsAtLeastTwo(s, e + 1);
  }

  /** Arguments and options split the groups between them: options are exactly the groups that start with `-`. */
  lemma {:induction false} KindsPartition(groups: seq<string>)
    ensures |OfKind(groups, false)| + |OfKind(groups, true)| == |groups|
    ensures forall g :: g in OfKind(groups, true) ==> g in groups && IsDashed(g)
    ensures forall g :: g in OfKind(groups, false) ==> g in groups && !IsDashed(g)
    ensures forall g :: g in groups ==> g in OfKind(groups, IsDashed(g))
  {
    if groups != [] {
      KindsPartition(groups[1..]);
      assert forall g :: g in groups ==> g == groups[0] || g in groups[1..];
    }
  }

  /** The characters other than white space, in order. */
  function Visible(s: string): string {
    if s == [] then [] else (if IsSpace(s[0]) then [] else [s[0]]) + Visible(s[1..])
  }

  /** Stripping drops white space only: every other character stays, in order. */
  lemma {:induction false} StripKeepsVisible(s: string, i: nat)
    requires i <= |s|
    ensures Visible(StripAround(s, i)) == Visible(s[i..])
    decreases |s| - i
  {
    if i < |s| {
      StripKeepsVisible(s, i + 1);
      var head := if IsSpace(s[i]) && (DelimiterBefore(s, i) || DelimiterAfter(s, i)) then [] else [s[i]];
      VisibleAppend(head, StripAround(s, i + 1));
      assert s[i..] == [s[i]] + s[i + 1..];
      VisibleAppend([s[i]], s[i + 1..]);
    } else {
      assert s[i..] == [];
    }
  }

  lemma {:induction false} VisibleAppend(a: string, b: string)
    ensures Visible(a + b) == Visible(a) + Visible(b)
  {
    if a == [] {
      assert a + b == b;
    } else {
      assert (a + b)[0] == a[0] && (a + b)[1..] == a[1..] + b;
      VisibleAppend(a[1..], b);
    }
  }

  /** The command name is the trimmed signature up to its first space, and the tokens are all that follows that space. */
  lemma {:induction false} SignatureSplit(signature: string)
    ensures var (name, rest) := SignatureParts(signature);
      ' ' !in name &&
      (if ' ' in Trim(signature) then Trim(signature) == name + " " + rest else Trim(signature) == name && rest == "")
  {
    IndexOfChar(Trim(signature), ' ');
  }


  /** A word with no delimiter, `?`, white space or line break in it. */
  predicate Plain(w: string) {
    w != [] && forall c :: c in w ==> c != ':' && c != '=' && c != '?' && !IsSpace(c) && !IsLineTerminator(c)
  }

  /** The `?` is read after the default comes off: before the `=` it marks the field optional... */
  lemma {:induction false} OptionalMarkBeforeDefault(name: string, value: string)
    requires Plain(name) && Plain(value)
    ensures ParseField(name + "?=" + value) == Field(true, Some(value), name, "")
  {
    var f := name + "?=" + value;
    DefaultOfMarked(name, value);
    NoColon(f);
    assert EndsWith(name + "?", "?") && (name + "?")[..|name|] == name;
  }

  lemma {:induction false} DefaultOfMarked(name: string, value: string)
    requires Plain(name) && Plain(value)
    ensures SplitDefault(name + "?=" + value) == (name + "?", Some(value))
    ensures forall k :: 0 <= k < |name + "?=" + value| ==> (name + "?=" + value)[k] != ':'
  {
    MarkedWord(name);
    PlainWord(value);
    assert name + "?=" + value == (name + "?") + "=" + value;
    WordsAroundEquals(name + "?", value);
  }

  /** Text the default split leaves as it is: no `:`, `=` or line break inside, no white space at its ends. */
  predicate Word(w: string) {
    w != [] && !IsSpace(w[0]) && !IsSpace(w[|w| - 1]) &&
    forall c :: c in w ==> c != ':' && c != '=' && !IsLineTerminator(c)
  }

  lemma PlainWord(w: string)
    requires Plain(w)
    ensures Word(w)
  {
    assert w[0] in w && w[|w| - 1] in w;
  }

  lemma MarkedWord(w: string)
    requires Plain(w)
    ensures Word(w + "?")
  {
    assert w[0] in w && (w + "?")[0] == w[0];
    assert forall c :: c in w + "?" ==> c in w || c == '?';
  }

  /** `left=right` splits into its two words. */
  lemma {:induction false} WordsAroundEquals(left: string, right: string)
    requires Word(left) && Word(right)
    ensures SplitDefault(left + "=" + right) == (left, Some(right))
    ensures forall k :: 0 <= k < |left + "=" + right| ==> (left + "=" + right)[k] != ':'
  {
    var f := left + "=" + right;
    PlainSplit(left, right, f);
    DefaultAfterLastEquals(f, |left|);
    TrimKeeps(left);
    TrimKeeps(right);
  }

  /** A plain name with a trailing `?` is an optional field without default or description. */
  lemma {:induction false} OptionalMark(name: string)
    requires Plain(name)
    ensures ParseField(name + "?") == Field(true, None, name, "")
  {
    var f := name + "?";
    forall j | 0 <= j < |f| ensures f[j] != ':' && f[j] != '=' {
      if j < |name| {
        assert f[j] == name[j] && name[j] in name;
      }
    }
    NoColon(f);
    NoEqualsNoDefault(f);
    assert f[..|name|] == name;
  }

  /** ... and after it, it belongs to the default. */
  lemma {:induction false} OptionalMarkAfterDefault(name: string, value: string)
    requires Plain(name) && Plain(value)
    ensures ParseField(name + "=" + value + "?") == Field(false, Some(value + "?"), name, "")
  {
    var f := name + "=" + value + "?";
    DefaultOfUnmarked(name, value);
    NoColon(f);
    assert name[|name| - 1] in name;
    assert !EndsWith(name, "?");
  }

  lemma {:induction false} DefaultOfUnmarked(name: string, value: string)
    requires Plain(name) && Plain(value)
    ensures SplitDefault(name + "=" + value + "?") == (name, Some(value + "?"))
    ensures forall k :: 0 <= k < |name + "=" + value + "?"| ==> (name + "=" + value + "?")[k] != ':'
  {
    PlainWord(name);
    MarkedWord(value);
    assert name + "=" + value + "?" == name + "=" + (value + "?");
    WordsAroundEquals(name, value + "?");
  }

  /** `left = right` with no other `=`, `:` or line break: the facts the default lemmas need. */
  lemma {:induction false} PlainSplit(left: string, right: string, f: string)
    requires left != [] && right != [] && f == left + "=" + right
    requires forall c :: c in left ==> c != ':' && c != '=' && !IsLineTerminator(c)
    requires forall c :: c in right ==> c != ':' && c != '=' && !IsLineTerminator(c)
    ensures forall k :: 0 <= k < |f| ==> f[k] != ':' && !IsLineTerminator(f[k])
    ensures f[|left|] == '=' && forall k :: |left| < k < |f| - 1 ==> f[k] != '='
    ensures f[..|left|] == left && f[|left| + 1..] == right
  {
    forall k | 0 <= k < |f| ensures f[k] != ':' && !IsLineTerminator(f[k]) {
      if k < |left| {
        assert f[k] == left[k] && left[k] in left;
      } else if k > |left| {
        assert f[k] == right[k - |left| - 1] && right[k - |left| - 1] in right;
      } else {
        assert f[k] == '=';
      }
    }
    forall k | |left| < k < |f| - 1 ensures f[k] != '=' {
      assert f[k] == right[k - |left| - 1] && right[k - |left| - 1] in right;
    }
  }

  lemma {:induction false} NoColon(field: string)
    requires forall j :: 0 <= j < |field| ==> field[j] != ':'
    ensures SplitDescription(field) == (field, "")
  {
    forall j: nat
      ensures !OccursAt(field, ":", j)
    {
      if j < |field| {
        assert field[j..j + 1][0] == field[j];
      }
    }
  }

  lemma TrimKeeps(s: string)
    requires s != [] && !IsSpace(s[0]) && !IsSpace(s[|s| - 1])
    ensures Trim(s) == s
  {
  }
}
