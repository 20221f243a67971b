/**
 * The document's style sheets as the runtime sees them, and the four
 * functions of styled.ts that read or change them: `queryClassName`,
 * `injectStyles`, `injectStylesObject` and `updateStylesCSS`.
 *
 * A sheet is the list of its rules; a rule records the selector the browser
 * reports for it and its text. A `<style>` element the runtime appends
 * becomes one sheet, whose rules carry exactly the text the code wrote.
 */
module StyleSheets {
  import opened Wrappers
  import opened Strings
  import opened Naming

  datatype Rule = Rule(selector: string, text: string)

  type Sheet = seq<Rule>

  /** The selector `.c` of class `c`. */
  function Selector(className: string): string { "." + className }

  /** The text `queryClassName` searches for: the selector followed by a space. */
  function QueryPattern(className: string): string { "." + className + " " }

  /** The rule `injectStyles` and `updateStylesCSS` write: `.c { styles }`. */
  function ClassRule(className: string, styles: string): (r: Rule)
    ensures WellFormed([[r]])
    ensures Contains(r.text, QueryPattern(className))
  {
    var r := Rule(Selector(className), "." + className + " { " + styles + " }");
    ContainsPrefix(r.text, QueryPattern(className));
    r
  }

  /** The rule `injectStylesObject` writes: `.c ` followed by an object body. */
  function ObjectRule(className: string, body: string): (r: Rule)
    ensures WellFormed([[r]])
    ensures Contains(r.text, QueryPattern(className))
  {
    var r := Rule(Selector(className), "." + className + " " + body);
    ContainsPrefix(r.text, QueryPattern(className));
    r
  }

  /** Some rule of some sheet mentions `.c ` in its text. */
  predicate HasClass(sheets: seq<Sheet>, className: string) {
    exists i, j | 0 <= i < |sheets| && 0 <= j < |sheets[i]| ::
      Contains(sheets[i][j].text, QueryPattern(className))
  }

  /** A rule's text starts with its selector and a space, as browsers serialise style rules. */
  predicate WellFormed(sheets: seq<Sheet>) {
    forall i, j | 0 <= i < |sheets| && 0 <= j < |sheets[i]| ::
      var rule := sheets[i][j];
      |rule.selector| + 1 <= |rule.text| && rule.text[..|rule.selector| + 1] == rule.selector + " "
  }

  /** The sheets after `injectStyles(c, styles)`. */
  function Injected(sheets: seq<Sheet>, className: string, styles: string): (r: seq<Sheet>)
    ensures HasClass(sheets, className) ==> r == sheets
    ensures !HasClass(sheets, className) ==> r == sheets + [[ClassRule(className, styles)]]
  {
    if HasClass(sheets, className) then sheets else sheets + [[ClassRule(className, styles)]]
  }

  /** The sheets after `injectStylesObject(c, body)`. */
  function InjectedObject(sheets: seq<Sheet>, className: string, body: string): (r: seq<Sheet>)
    ensures HasClass(sheets, className) ==> r == sheets
    ensures !HasClass(sheets, className) ==> r == sheets + [[ObjectRule(className, body)]]
  {
    if HasClass(sheets, className) then sheets else sheets + [[ObjectRule(className, body)]]
  }

  /** Position of a rule: index of its sheet, index within that sheet. */
  datatype Position = Position(sheet: nat, rule: nat)

  /** `p` is the first rule, sheet by sheet and rule by rule, whose selector is `sel`. */
  predicate IsFirstMatch(sheets: seq<Sheet>, sel: string, p: Position) {
    && p.sheet < |sheets|
    && p.rule < |sheets[p.sheet]|
    && sheets[p.sheet][p.rule].selector == sel
    && (forall q, k | 0 <= q < p.sheet && 0 <= k < |sheets[q]| :: sheets[q][k].selector != sel)
    && (forall k | 0 <= k < p.rule :: sheets[p.sheet][k].selector != sel)
  }

  predicate NoMatch(sheets: seq<Sheet>, sel: string) {
    forall q, k | 0 <= q < |sheets| && 0 <= k < |sheets[q]| :: sheets[q][k].selector != sel
  }

  function FindInSheet(rules: Sheet, sel: string): (r: Option<nat>)
    ensures r.None? ==> forall k | 0 <= k < |rules| :: rules[k].selector != sel
    ensures r.Some? ==> r.value < |rules| && rules[r.value].selector == sel
    ensures r.Some? ==> forall k | 0 <= k < r.value :: rules[k].selector != sel
  {
    if rules == [] then None
    else if rules[0].selector == sel then Some(0)
    else match FindInSheet(rules[1..], sel)
      case None => None
      case Some(k) => Some(k + 1)
  }

  /** The rule the nested loops of `updateStylesCSS` stop at. */
  function FindSelector(sheets: seq<Sheet>, sel: string): (r: Option<Position>)
    ensures r.None? <==> NoMatch(sheets, sel)
    ensures r.Some? ==> IsFirstMatch(sheets, sel, r.value)
  {
    if sheets == [] then None
    else match FindInSheet(sheets[0], sel)
      case Some(k) => Some(Position(0, k))
      case None =>
        match FindSelector(sheets[1..], sel)
        case None => None
        case Some(p) => Some(Position(p.sheet + 1, p.rule))
  }

  lemma FirstMatchUnique(sheets: seq<Sheet>, sel: string, p: Position, p': Position)
    requires IsFirstMatch(sheets, sel, p) && IsFirstMatch(sheets, sel, p')
    ensures p == p'
  {
  }

  /** The sheets after `updateStylesCSS(c, styles)`. */
  function Updated(sheets: seq<Sheet>, className: string, styles: string): (r: seq<Sheet>)
    ensures |r| == |sheets|
    ensures forall q | 0 <= q < |r| :: |r[q]| == |sheets[q]|
    ensures forall q, k | 0 <= q < |r| && 0 <= k < |r[q]| && r[q][k] != sheets[q][k] ::
      && HasClass(sheets, className)
      && IsFirstMatch(sheets, Selector(className), Position(q, k))
      && r[q][k] == ClassRule(className, styles)
    ensures !HasClass(sheets, className) || NoMatch(sheets, Selector(className)) ==> r == sheets
    ensures HasClass(sheets, className) ==>
      forall p | IsFirstMatch(sheets, Selector(className), p) ::
        r[p.sheet][p.rule] == ClassRule(className, styles)
  {
    if !HasClass(sheets, className) then sheets
    else match FindSelector(sheets, Selector(className))
      case None => sheets
      case Some(p) => sheets[p.sheet := sheets[p.sheet][p.rule := ClassRule(className, styles)]]
  }

  /** `deleteRule(j)` on one sheet. */
  function DeleteRule(rules: Sheet, j: nat): Sheet
    requires j < |rules|
  {
    rules[..j] + rules[j + 1..]
  }

  /** `insertRule(rule, j)` on one sheet. */
  function InsertRule(rules: Sheet, rule: Rule, j: nat): Sheet
    requires j <= |rules|
  {
    rules[..j] + [rule] + rules[j..]
  }

  /** Deleting rule j and inserting a rule at j replaces rule j in place. */
  lemma DeleteThenInsert(rules: Sheet, rule: Rule, j: nat)
    requires j < |rules|
    ensures InsertRule(DeleteRule(rules, j), rule, j) == rules[j := rule]
  {
    var d := DeleteRule(rules, j);
    assert d[..j] == rules[..j];
    assert d[j..] == rules[j + 1..];
  }

  class Document {
    /** `document.styleSheets`, each sheet with its `cssRules`. */
    var sheets: seq<Sheet>

    constructor (initial: seq<Sheet>)
      ensures sheets == initial
    {
      sheets := initial;
    }

    /** `queryClassName(c)`: scans every rule of every sheet for the text `.c `. */
    method QueryClassName(className: string) returns (found: bool)
      ensures found == HasClass(sheets, className)
    {
      var pattern := "." + className + " ";
      var i := 0;
      while i < |sheets|
        invariant 0 <= i <= |sheets|
        invariant forall p, k | 0 <= p < i && 0 <= k < |sheets[p]| ::
          !Contains(sheets[p][k].text, QueryPattern(className))
      {
        var rules := sheets[i];
        var j := 0;
        while j < |rules|
          invariant 0 <= j <= |rules|
          invariant forall k | 0 <= k < j :: !Contains(rules[k].text, QueryPattern(className))
        {
          if Contains(rules[j].text, pattern) {
            return true;
          }
          j := j + 1;
        }
        i := i + 1;
      }
      return false;
    }

    /** `injectStyles(c, styles)`: appends a sheet holding `.c { styles }` unless `.c ` is present. */
    method InjectStyles(className: string, styles: string)
      modifies this
      ensures sheets == Injected(old(sheets), className, styles)
    {
      var present := QueryClassName(className);
      if !present {
        sheets := sheets + [[ClassRule(className, styles)]];
      }
    }

    /** `injectStylesObject(c, body)`: appends a sheet holding `.c body` unless `.c ` is present. */
    method InjectStylesObject(className: string, body: string)
      modifies this
      ensures sheets == InjectedObject(old(sheets), className, body)
    {
      var present := QueryClassName(className);
      if !present {
        sheets := sheets + [[ObjectRule(className, body)]];
      }
    }

    /**
     * `updateStylesCSS(c, styles)`: when `.c ` is present, replaces the first
     * rule whose selector is exactly `.c` by `.c { styles }`, in place.
     */
    method UpdateStylesCss(className: string, styles: string)
      modifies this
      ensures sheets == Updated(old(sheets), className, styles)
    {
      var present := QueryClassName(className);
      if !present {
        return;
      }
      var sel := "." + className;
      var i := 0;
      while i < |sheets|
        invariant 0 <= i <= |sheets|
        invariant sheets == old(sheets)
        invariant forall q, k | 0 <= q < i && 0 <= k < |sheets[q]| :: sheets[q][k].selector != sel
      {
        var j := 0;
        while j < |sheets[i]|
          invariant 0 <= j <= |sheets[i]|
          invariant sheets == old(sheets)
          invariant forall k | 0 <= k < j :: sheets[i][k].selector != sel
        {
          if sheets[i][j].selector == sel {
            ghost var p := FindSelector(sheets, sel);
            FirstMatchUnique(sheets, sel, p.value, Position(i, j));
            var rule := ClassRule(className, styles);
            DeleteThenInsert(sheets[i], rule, j);
            var sheet := DeleteRule(sheets[i], j);
            sheets := sheets[i := InsertRule(sheet, rule, j)];
            return;
          }
          j := j + 1;
        }
        i := i + 1;
      }
    }

    /** `document.head.appendChild(styleElement)`: the element's rules become a new last sheet. */
    method AppendSheet(sheet: Sheet)
      modifies this
      ensures sheets == old(sheets) + [sheet]
    {
      sheets := sheets + [sheet];
    }
  }

  /** Appending a sheet adds to the query exactly the rules of that sheet. */
  lemma HasClassAppend(sheets: seq<Sheet>, sheet: Sheet, className: string)
    ensures HasClass(sheets + [sheet], className)
        <==> HasClass(sheets, className)
             || exists j | 0 <= j < |sheet| :: Contains(sheet[j].text, QueryPattern(className))
  {
    var longer := sheets + [sheet];
    var pattern := QueryPattern(className);
    if HasClass(longer, className) {
      var i, j :| 0 <= i < |longer| && 0 <= j < |longer[i]| && Contains(longer[i][j].text, pattern);
      if i == |sheets| {
        assert Contains(sheet[j].text, pattern);
      } else {
        assert Contains(sheets[i][j].text, pattern);
      }
    }
    if HasClass(sheets, className) {
      var i, j :| 0 <= i < |sheets| && 0 <= j < |sheets[i]| && Contains(sheets[i][j].text, pattern);
      assert longer[i][j] == sheets[i][j];
    }
    if exists j | 0 <= j < |sheet| :: Contains(sheet[j].text, pattern) {
      var j :| 0 <= j < |sheet| && Contains(sheet[j].text, pattern);
      assert longer[|sheets|][j] == sheet[j];
    }
  }

  /** After an injection the class is present. */
  lemma InjectedHasClass(sheets: seq<Sheet>, className: string, styles: string)
    ensures HasClass(Injected(sheets, className, styles), className)
  {
    if !HasClass(sheets, className) {
      var r: seq<Sheet> := Injected(sheets, className, styles);
      var text := ClassRule(className, styles).text;
      ContainsPrefix(text, QueryPattern(className));
      assert r[|sheets|][0].text == text;
    }
  }

  /** Injecting the same class twice is the same as injecting it once. */
  lemma InjectIdempotent(sheets: seq<Sheet>, className: string, styles: string, styles': string)
    ensures Injected(Injected(sheets, className, styles), className, styles')
         == Injected(sheets, className, styles)
  {
    InjectedHasClass(sheets, className, styles);
  }

  lemma InjectedObjectHasClass(sheets: seq<Sheet>, className: string, body: string)
    ensures HasClass(InjectedObject(sheets, className, body), className)
  {
    if !HasClass(sheets, className) {
      var r: seq<Sheet> := InjectedObject(sheets, className, body);
      var text := ObjectRule(className, body).text;
      ContainsPrefix(text, QueryPattern(className));
      assert r[|sheets|][0].text == text;
    }
  }

  lemma InjectObjectIdempotent(sheets: seq<Sheet>, className: string, body: string, body': string)
    ensures InjectedObject(InjectedObject(sheets, className, body), className, body')
         == InjectedObject(sheets, className, body)
  {
    InjectedObjectHasClass(sheets, className, body);
  }

  /** Updating twice with the same styles is the same as updating once. */
  lemma UpdateIdempotent(sheets: seq<Sheet>, className: string, styles: string)
    ensures Updated(Updated(sheets, className, styles), className, styles)
         == Updated(sheets, className, styles)
  {
    var once := Updated(sheets, className, styles);
    var sel := Selector(className);
    if HasClass(sheets, className) && FindSelector(sheets, sel).Some? {
      var p := FindSelector(sheets, sel).value;
      var rule := ClassRule(className, styles);
      assert once[p.sheet][p.rule] == rule;
      ContainsPrefix(rule.text, QueryPattern(className));
      assert HasClass(once, className);
      assert IsFirstMatch(once, sel, p);
      FirstMatchUnique(once, sel, FindSelector(once, sel).value, p);
      assert once[p.sheet][p.rule := rule] == once[p.sheet];
    }
  }

  /**
   * The life of a `dynamicCSS` class: injecting a class that was absent and
   * then updating it leaves the same sheets as injecting the final styles.
   */
  lemma InjectThenUpdate(sheets: seq<Sheet>, className: string, styles: string, styles': string)
    requires WellFormed(sheets)
    requires !HasClass(sheets, className)
    ensures Updated(Injected(sheets, className, styles), className, styles')
         == Injected(sheets, className, styles')
  {
    var sel := Selector(className);
    var injected := Injected(sheets, className, styles);
    InjectedHasClass(sheets, className, styles);
    forall q, k | 0 <= q < |sheets| && 0 <= k < |sheets[q]|
      ensures sheets[q][k].selector != sel
    {
      var rule := sheets[q][k];
      if rule.selector == sel {
        assert rule.text[..|QueryPattern(className)|] == QueryPattern(className);
        ContainsPrefix(rule.text, QueryPattern(className));
        assert false;
      }
    }
    var p := Position(|sheets|, 0);
    assert injected == sheets + [[ClassRule(className, styles)]];
    assert IsFirstMatch(injected, sel, p);
    FirstMatchUnique(injected, sel, FindSelector(injected, sel).value, p);
    assert injected[p.sheet][p.rule := ClassRule(className, styles')] == [ClassRule(className, styles')];
    assert injected[p.sheet := [ClassRule(className, styles')]] == sheets + [[ClassRule(className, styles')]];
  }

  /** A sheet without a rule for `sel` appended at the end does not change where the update lands. */
  lemma FindSelectorAppend(sheets: seq<Sheet>, sheet: Sheet, sel: string)
    requires forall k | 0 <= k < |sheet| :: sheet[k].selector != sel
    ensures FindSelector(sheets + [sheet], sel) == FindSelector(sheets, sel)
  {
    var longer := sheets + [sheet];
    match FindSelector(sheets, sel)
    case None =>
      assert NoMatch(longer, sel);
    case Some(p) =>
      assert IsFirstMatch(longer, sel, p);
      FirstMatchUnique(longer, sel, FindSelector(longer, sel).value, p);
  }

  /**
   * The trailing space in the query keeps class names apart: the rule
   * written for one generated class never answers a query for a different
   * one (`styled-component-1` is not found in the rule of `styled-component-10`),
   * unless the styles themselves spell out the other class.
   */
  lemma QueryDistinguishesClasses(n: int, m: int, styles: string)
    requires n != m
    requires !Contains(styles + " }", QueryPattern(ClassName(n)))
    ensures !Contains(ClassRule(ClassName(m), styles).text, QueryPattern(ClassName(n)))
  {
    ClassNameInjective(n, m);
    ClassNameCharacters(n);
    ClassNameCharacters(m);
    QueryMissesOtherRule(ClassName(n), ClassName(m), styles);
  }

  lemma ClassNameCharacters(n: int)
    ensures forall i | 0 <= i < |ClassName(n)| :: ClassName(n)[i] != '.' && ClassName(n)[i] != ' '
  {
    var digits := IntToString(n);
    forall i | 0 <= i < |ClassName(n)| ensures ClassName(n)[i] != '.' && ClassName(n)[i] != ' ' {
      if i >= |ClassPrefix| {
        assert ClassName(n)[i] == digits[i - |ClassPrefix|];
      }
    }
  }

  /** The query for class `x` does not match the rule of class `y` anywhere outside its styles. */
  lemma QueryMissesOtherRule(x: string, y: string, styles: string)
    requires x != y
    requires forall i | 0 <= i < |x| :: x[i] != ' '
    requires forall i | 0 <= i < |y| :: y[i] != ' ' && y[i] != '.'
    requires !Contains(styles + " }", "." + x + " ")
    ensures !Contains("." + y + " { " + styles + " }", "." + x + " ")
  {
    var pattern := "." + x + " ";
    var head := "." + y + " { ";
    var tail := styles + " }";
    var text := "." + y + " { " + styles + " }";
    assert text == head + tail;
    var afterDot := y + " { ";
    assert head[1..] == afterDot;
    assert forall i | 0 <= i < |afterDot| :: afterDot[i] != '.';
    forall k | 0 <= k <= |text| - |pattern| ensures !OccursAt(text, pattern, k) {
      if k == 0 {
        SpaceEndsToken(x, y, "{ " + tail, pattern, text);
      } else if k < |head| {
        assert text[k..k + |pattern|][0] == afterDot[k - 1] != '.' == pattern[0];
      } else {
        assert text[k..k + |pattern|] == tail[k - |head|..k - |head| + |pattern|];
        assert !OccursAt(tail, pattern, k - |head|);
      }
    }
  }

  function CharOrSpace(s: string, k: nat): char {
    if k < |s| then s[k] else ' '
  }

  /**
   * `.X ` does not start a text that reads `.Y ...` when X and Y differ
   * and neither holds a space.
   */
  lemma SpaceEndsToken(x: string, y: string, rest: string, pattern: string, text: string)
    requires forall i | 0 <= i < |x| :: x[i] != ' '
    requires forall i | 0 <= i < |y| :: y[i] != ' '
    requires pattern == "." + x + " "
    requires text == "." + y + " " + rest
    requires |pattern| <= |text|
    ensures text[..|pattern|] == pattern ==> x == y
  {
    var px, ty := pattern[1..], text[1..];
    assert px == x + " " && ty == y + " " + rest;
    var k := if |x| < |y| then |x| else |y|;
    assert px[k] == CharOrSpace(x, k);
    assert ty[k] == CharOrSpace(y, k);
    assert text[..|pattern|][k + 1] == ty[k];
    assert pattern[k + 1] == px[k];
    if |x| == |y| {
      assert text[..|pattern|] == "." + y + " ";
      assert pattern[1..|x| + 1] == x;
      assert ("." + y + " ")[1..|y| + 1] == y;
    }
  }
}
