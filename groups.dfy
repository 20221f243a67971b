/**
 * `AttributeGroup`, `StyleGroup` and `setAnimation` (styled.ts): objects
 * holding one CSS body per key, and `generate`, which writes them all into
 * one new `<style>` element, one rule per `selector { body }` block the
 * loop appends.
 */
module Groups {
  import opened Strings
  import opened Template
  import opened Naming
  import opened StyleSheets

  /** The strings `for (const key in keys)` visits over an array of n keys: its indices "0", ..., "n-1". */
  function IndexKeys(n: nat): set<string> {
    set k | 0 <= k < n :: NatToString(k)
  }

  /** The map after `for (const key in keys) maps.set(key, f(key))` over an array of n keys. */
  function WithIndexEntries(m: map<string, string>, n: nat, f: string -> string): (r: map<string, string>)
    ensures r.Keys == m.Keys + IndexKeys(n)
    ensures forall k | 0 <= k < n :: r[NatToString(k)] == f(NatToString(k))
    ensures forall key | key in m && key !in IndexKeys(n) :: r[key] == m[key]
  {
    if n == 0 then m
    else
      IndexKeysStep(n);
      WithIndexEntries(m, n - 1, f)[NatToString(n - 1) := f(NatToString(n - 1))]
  }

  /** The index keys grow by one new string at a time. */
  lemma IndexKeysStep(n: nat)
    requires n > 0
    ensures IndexKeys(n) == IndexKeys(n - 1) + {NatToString(n - 1)}
    ensures NatToString(n - 1) !in IndexKeys(n - 1)
  {
    forall k | 0 <= k < n - 1 ensures NatToString(k) != NatToString(n - 1) {
      NatToStringInjective(k, n - 1);
    }
  }

  /** The `for...in` loop of the constructors and of `init`. */
  method FillIndexEntries(m: map<string, string>, n: nat, f: string -> string)
    returns (r: map<string, string>)
    ensures r == WithIndexEntries(m, n, f)
  {
    r := m;
    var i := 0;
    while i < n
      invariant 0 <= i <= n
      invariant r == WithIndexEntries(m, i, f)
    {
      var key := NatToString(i);
      r := r[key := f(key)];
      i := i + 1;
    }
  }

  function Blank(key: string): string { "" }

  /** `${this.maps.get(key)!}`: the stored body, or "undefined" when the key was never set. */
  function MapText(maps: map<string, string>, key: string): (r: string)
    ensures key in maps ==> r == maps[key]
    ensures key !in maps ==> r == "undefined"
  {
    if key in maps then maps[key] else "undefined"
  }

  /** The newline-terminated lines a generated `<style>` element holds. */
  function Html(rules: seq<Rule>): string {
    if rules == [] then "" else Html(rules[..|rules| - 1]) + rules[|rules| - 1].text + "\n"
  }

  lemma HtmlSnoc(rules: seq<Rule>, rule: Rule)
    ensures Html(rules + [rule]) == Html(rules) + rule.text + "\n"
  {
    assert (rules + [rule])[..|rules|] == rules;
  }

  /** The line `.g[key] { body }` of an attribute group. */
  function AttributeRule(group: string, key: string, maps: map<string, string>): Rule {
    var sel := "." + group + "[" + key + "]";
    Rule(sel, sel + " { " + MapText(maps, key) + " }")
  }

  /** The attribute lines, one per key, in key order. */
  function AttributeRules(group: string, keys: seq<string>, maps: map<string, string>): (r: seq<Rule>)
    ensures |r| == |keys|
    ensures forall i | 0 <= i < |keys| :: r[i] == AttributeRule(group, keys[i], maps)
  {
    if keys == [] then []
    else AttributeRules(group, keys[..|keys| - 1], maps) + [AttributeRule(group, keys[|keys| - 1], maps)]
  }

  /** What `AttributeGroup.generate` writes: the base line `.g { base }`, then the attribute lines. */
  function AttributeSheet(group: string, base: string, keys: seq<string>, maps: map<string, string>): (r: Sheet)
    ensures |r| == |keys| + 1 && r[0] == ClassRule(group, base)
    ensures forall i | 0 <= i < |keys| :: r[i + 1] == AttributeRule(group, keys[i], maps)
  {
    [ClassRule(group, base)] + AttributeRules(group, keys, maps)
  }

  class AttributeGroup {
    const keys: seq<string>
    var groupName: string
    var baseCss: string
    var maps: map<string, string>

    /** `new AttributeGroup(keys)`: one blank entry per array index, and a generated group class. */
    constructor (keys: seq<string>, ids: UniqueUid)
      modifies ids
      ensures this.keys == keys && baseCss == ""
      ensures maps == WithIndexEntries(map[], |keys|, Blank)
      ensures ids.uid == old(ids.uid) + 1 && groupName == ClassName(ids.uid)
    {
      this.keys := keys;
      baseCss := "";
      var m := FillIndexEntries(map[], |keys|, Blank);
      maps := m;
      new;
      groupName := GenerateClassName(ids);
    }

    /** `initBaseCSS`: the fragments joined with single spaces; interpolated values are not used. */
    method InitBaseCss(fragments: seq<string>)
      modifies this
      ensures baseCss == Join(fragments, " ")
      ensures maps == old(maps) && groupName == old(groupName)
    {
      baseCss := Join(fragments, " ");
    }

    /** `init(initfn)`: sets the entry of every array index to `initfn` of that index. */
    method Init(initfn: string -> string)
      modifies this
      ensures maps == WithIndexEntries(old(maps), |keys|, initfn)
      ensures baseCss == old(baseCss) && groupName == old(groupName)
    {
      maps := FillIndexEntries(maps, |keys|, initfn);
    }

    /** `setCSS(key)` applied to a template: overwrites that one entry. */
    method SetCss(key: string, fragments: seq<string>, args: seq<string>)
      modifies this
      ensures maps == old(maps)[key := Interleave(fragments, args)]
      ensures baseCss == old(baseCss) && groupName == old(groupName)
    {
      var css := BuildCss(fragments, args);
      maps := maps[key := css];
    }

    /** `generate()`: appends a `<style>` element with the base line and one line per key. */
    method Generate(doc: Document) returns (html: string)
      modifies doc
      ensures doc.sheets == old(doc.sheets) + [AttributeSheet(groupName, baseCss, keys, maps)]
      ensures html == Html(AttributeSheet(groupName, baseCss, keys, maps))
    {
      var rules;
      rules, html := AttributeLines(groupName, baseCss, keys, maps);
      doc.AppendSheet(rules);
    }
  }

  /** The `innerHTML` loop of `AttributeGroup.generate`: the base line, then a line per key. */
  method AttributeLines(group: string, base: string, keys: seq<string>, maps: map<string, string>)
    returns (rules: Sheet, html: string)
    ensures rules == AttributeSheet(group, base, keys, maps)
    ensures html == Html(rules)
  {
    rules := [ClassRule(group, base)];
    html := rules[0].text + "\n";
    assert rules[..0] == [];
    var i := 0;
    while i < |keys|
      invariant 0 <= i <= |keys|
      invariant rules == AttributeSheet(group, base, keys[..i], maps)
      invariant html == Html(rules)
    {
      var rule := AttributeRule(group, keys[i], maps);
      html := html + rule.text + "\n";
      HtmlSnoc(rules, rule);
      AttributeSheetStep(group, base, keys, i, maps);
      rules := rules + [rule];
      i := i + 1;
    }
    assert keys[..|keys|] == keys;
  }

  lemma AttributeSheetStep(group: string, base: string, keys: seq<string>, i: nat, maps: map<string, string>)
    requires i < |keys|
    ensures AttributeSheet(group, base, keys[..i + 1], maps)
         == AttributeSheet(group, base, keys[..i], maps) + [AttributeRule(group, keys[i], maps)]
  {
    assert keys[..i + 1][..i] == keys[..i];
  }

  /** `.key` for the main key, `.main.key` for every other key. */
  function StyleSelector(mainKey: string, key: string): string {
    if key != mainKey then "." + mainKey + "." + key else "." + key
  }

  /** For keys without a dot, different keys of one group get different selectors. */
  lemma StyleSelectorsDistinct(mainKey: string, key: string, key': string)
    requires key != key'
    requires '.' !in key && '.' !in key'
    ensures StyleSelector(mainKey, key) != StyleSelector(mainKey, key')
  {
    var s, s' := StyleSelector(mainKey, key), StyleSelector(mainKey, key');
    if key == mainKey {
      assert s[1..] == key;
      assert s'[1..][|mainKey|] == '.';
    } else if key' == mainKey {
      assert s'[1..] == key';
      assert s[1..][|mainKey|] == '.';
    } else {
      assert s[|mainKey| + 2..] == key;
      assert s'[|mainKey| + 2..] == key';
    }
  }

  function StyleRule(mainKey: string, key: string, maps: map<string, string>): Rule {
    var sel := StyleSelector(mainKey, key);
    Rule(sel, sel + " { " + MapText(maps, key) + " }")
  }

  /** The line of one key is a well-formed rule under its selector whose text holds the key's body. */
  lemma StyleRuleShape(mainKey: string, key: string, maps: map<string, string>)
    ensures StyleRule(mainKey, key, maps).selector == StyleSelector(mainKey, key)
    ensures WellFormed([[StyleRule(mainKey, key, maps)]])
    ensures Contains(StyleRule(mainKey, key, maps).text, MapText(maps, key))
  {
    var r := StyleRule(mainKey, key, maps);
    assert OccursAt(r.text, MapText(maps, key), |r.selector| + 3);
  }

  /** What `StyleGroup.generate` writes: one line per key, in key order. */
  function StyleSheet(mainKey: string, keys: seq<string>, maps: map<string, string>): Sheet {
    if keys == [] then []
    else StyleSheet(mainKey, keys[..|keys| - 1], maps) + [StyleRule(mainKey, keys[|keys| - 1], maps)]
  }

  /** Line i of a style group's sheet is the rule of key i. */
  lemma {:induction false} StyleSheetLines(mainKey: string, keys: seq<string>, maps: map<string, string>)
    ensures |StyleSheet(mainKey, keys, maps)| == |keys|
    ensures forall i | 0 <= i < |keys| :: StyleSheet(mainKey, keys, maps)[i] == StyleRule(mainKey, keys[i], maps)
  {
    if keys != [] {
      var front := keys[..|keys| - 1];
      StyleSheetLines(mainKey, front, maps);
      forall i | 0 <= i < |front| ensures front[i] == keys[i] { }
    }
  }

  class StyleGroup {
    const keys: seq<string>
    const mainKey: string
    var maps: map<string, string>

    constructor (keys: seq<string>, mainKey: string)
      ensures this.keys == keys && this.mainKey == mainKey
      ensures maps == WithIndexEntries(map[], |keys|, Blank)
    {
      this.keys := keys;
      this.mainKey := mainKey;
      var m := FillIndexEntries(map[], |keys|, Blank);
      maps := m;
    }

    method Init(initfn: string -> string)
      modifies this
      ensures maps == WithIndexEntries(old(maps), |keys|, initfn)
    {
      maps := FillIndexEntries(maps, |keys|, initfn);
    }

    method SetCss(key: string, fragments: seq<string>, args: seq<string>)
      modifies this
      ensures maps == old(maps)[key := Interleave(fragments, args)]
    {
      var css := BuildCss(fragments, args);
      maps := maps[key := css];
    }

    /** `generate()`: appends one line per key and returns the map of every key to itself. */
    method Generate(doc: Document) returns (result: map<string, string>, html: string)
      modifies doc
      ensures result == SelfMap(keys)
      ensures doc.sheets == old(doc.sheets) + [StyleSheet(mainKey, keys, maps)]
      ensures html == Html(StyleSheet(mainKey, keys, maps))
    {
      var rules;
      result, rules, html := StyleLines(mainKey, keys, maps);
      doc.AppendSheet(rules);
    }
  }

  /** The loop of `StyleGroup.generate`: the self map, the lines and their text, built key by key. */
  method StyleLines(mainKey: string, keys: seq<string>, maps: map<string, string>)
    returns (result: map<string, string>, rules: Sheet, html: string)
    ensures result == SelfMap(keys)
    ensures rules == StyleSheet(mainKey, keys, maps)
    ensures html == Html(rules)
  {
    result := map[];
    html := "";
    rules := [];
    assert result == SelfMap(keys[..0]);
    var i := 0;
    while i < |keys|
      invariant 0 <= i <= |keys|
      invariant result == SelfMap(keys[..i])
      invariant rules == StyleSheet(mainKey, keys[..i], maps)
      invariant html == Html(rules)
    {
      var key := keys[i];
      result := result[key := key];
      var rule := StyleRule(mainKey, key, maps);
      html := html + rule.text + "\n";
      HtmlSnoc(rules, rule);
      StyleSheetStep(mainKey, keys, i, maps);
      rules := rules + [rule];
      SelfMapStep(keys, i);
      i := i + 1;
    }
    assert keys[..|keys|] == keys;
  }

  /** The object `StyleGroup.generate` returns: every key mapped to itself. */
  function SelfMap(keys: seq<string>): map<string, string> {
    map key | key in keys :: key
  }

  /** The returned object holds exactly the group's keys, each mapped to itself. */
  lemma SelfMapMeaning(keys: seq<string>)
    ensures forall key :: key in SelfMap(keys) <==> key in keys
    ensures forall key | key in SelfMap(keys) :: SelfMap(keys)[key] == key
  {
  }

  lemma StyleSheetStep(mainKey: string, keys: seq<string>, i: nat, maps: map<string, string>)
    requires i < |keys|
    ensures StyleSheet(mainKey, keys[..i + 1], maps) == StyleSheet(mainKey, keys[..i], maps) + [StyleRule(mainKey, keys[i], maps)]
  {
    assert keys[..i + 1][..i] == keys[..i];
  }

  lemma SelfMapStep(keys: seq<string>, i: nat)
    requires i < |keys|
    ensures SelfMap(keys[..i + 1]) == SelfMap(keys[..i])[keys[i] := keys[i]]
  {
    assert keys[..i + 1] == keys[..i] + [keys[i]];
  }

  /** The rule `@keyframes name { css }`. */
  function KeyframesRule(name: string, css: string): (r: Rule)
    ensures WellFormed([[r]])
    ensures |r.selector| > 0 && r.selector[0] == '@'
    ensures Contains(r.text, css)
  {
    var sel := "@keyframes " + name;
    var r := Rule(sel, sel + " { " + css + " }");
    assert OccursAt(r.text, css, |sel| + 3);
    r
  }

  /** `setAnimation(name)` applied to a template: appends a `<style>` element holding the keyframes. */
  method SetAnimation(doc: Document, name: string, fragments: seq<string>, args: seq<string>)
    returns (html: string)
    modifies doc
    ensures doc.sheets == old(doc.sheets) + [[KeyframesRule(name, Interleave(fragments, args))]]
    ensures html == Html([KeyframesRule(name, Interleave(fragments, args))])
  {
    var css := BuildCss(fragments, args);
    var rule := KeyframesRule(name, css);
    html := rule.text + "\n";
    assert [rule][..0] == [];
    doc.AppendSheet([rule]);
  }

  /** A keyframes sheet never holds the rule an `updateStylesCSS` of a class rewrites. */
  lemma KeyframesUntouchedByUpdate(sheets: seq<Sheet>, name: string, css: string, className: string)
    ensures FindSelector(sheets + [[KeyframesRule(name, css)]], Selector(className))
         == FindSelector(sheets, Selector(className))
  {
    assert KeyframesRule(name, css).selector[0] == '@';
    FindSelectorAppend(sheets, [KeyframesRule(name, css)], Selector(className));
  }

  /** A key holding a character other than a digit is never one of the index strings. */
  lemma NamedKeyNotIndex(key: string, n: nat)
    requires exists i | 0 <= i < |key| :: !IsDigit(key[i])
    ensures key !in IndexKeys(n)
  {
    var i :| 0 <= i < |key| && !IsDigit(key[i]);
    forall k | 0 <= k < n ensures NatToString(k) != key {
      if i < |NatToString(k)| {
        assert IsDigit(NatToString(k)[i]);
      }
    }
  }

  /**
   * As written, the constructor and `init` fill the entries of the array
   * indices, so after `new AttributeGroup(["primary"])` and
   * `init(() => "color: red")` the generated line for `primary` reads
   * `.g[primary] { undefined }`.
   */
  lemma InitByIndexLeavesKeysUndefined(group: string)
    ensures AttributeRules(group, ["primary"],
              WithIndexEntries(WithIndexEntries(map[], 1, Blank), 1, _ => "color: red"))[0].text
         == "." + group + "[" + "primary" + "]" + " { " + "undefined" + " }"
  {
    var maps := WithIndexEntries(WithIndexEntries(map[], 1, Blank), 1, _ => "color: red");
    assert !IsDigit("primary"[0]);
    NamedKeyNotIndex("primary", 1);
    assert "primary" !in maps;
    assert AttributeRules(group, ["primary"], maps)[0] == AttributeRule(group, "primary", maps);
  }

  /** The map `init` evidently means to build: every key name set to `f(key)` (`for...of`). */
  function WithNamedEntries(m: map<string, string>, keys: seq<string>, f: string -> string)
    : (r: map<string, string>)
    ensures forall key :: key in r <==> key in m || key in keys
    ensures forall i | 0 <= i < |keys| :: r[keys[i]] == f(keys[i])
    ensures forall key | key in m && key !in keys :: r[key] == m[key]
  {
    if keys == [] then m
    else WithNamedEntries(m, keys[..|keys| - 1], f)[keys[|keys| - 1] := f(keys[|keys| - 1])]
  }

  /** With entries set by key name, every generated attribute line carries `f(key)`. */
  lemma InitByNameFillsEveryLine(group: string, keys: seq<string>, m: map<string, string>,
                                 f: string -> string)
    ensures forall i | 0 <= i < |keys| ::
      AttributeRules(group, keys, WithNamedEntries(m, keys, f))[i].text
      == "." + group + "[" + keys[i] + "] { " + f(keys[i]) + " }"
  {
    forall i | 0 <= i < |keys|
      ensures AttributeRules(group, keys, WithNamedEntries(m, keys, f))[i].text
           == "." + group + "[" + keys[i] + "] { " + f(keys[i]) + " }"
    {
      NamedLine(group, keys, WithNamedEntries(m, keys, f), f, i);
    }
  }

  lemma NamedLine(group: string, keys: seq<string>, maps: map<string, string>, f: string -> string, i: nat)
    requires i < |keys| && keys[i] in maps && maps[keys[i]] == f(keys[i])
    ensures AttributeRules(group, keys, maps)[i].text == "." + group + "[" + keys[i] + "] { " + f(keys[i]) + " }"
  {
    assert AttributeRules(group, keys, maps)[i] == AttributeRule(group, keys[i], maps);
  }
}
