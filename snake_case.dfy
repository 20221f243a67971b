/**
 * `toSnakeCase` (styled.ts): rewrites every key of a style object from
 * camelCase to the hyphenated form CSS uses, keeping the values, and the two
 * `replaceAll` steps that turn the stringified object into a rule body.
 */
module SnakeCase {

  /** The characters the regular expression `/[A-Z]/` matches. */
  predicate IsUpper(c: char) { 'A' <= c <= 'Z' }

  predicate IsLower(c: char) { 'a' <= c <= 'z' }

  function ToLower(c: char): (r: char)
    requires IsUpper(c)
    ensures IsLower(r)
  {
    (c as int + 32) as char
  }

  function ToUpper(c: char): (r: char)
    requires IsLower(c)
    ensures IsUpper(r)
  {
    (c as int - 32) as char
  }

  /** The replacement of one character: a capital becomes `-` and its lower-case form. */
  function SnakeChar(c: char): string {
    if IsUpper(c) then ['-', ToLower(c)] else [c]
  }

  /** `key.replace(/[A-Z]/g, (letter) => `-${letter.toLowerCase()}`)`. */
  function SnakeKey(key: string): (r: string)
    ensures forall i | 0 <= i < |r| :: !IsUpper(r[i])
    ensures |key| <= |r|
  {
    if key == [] then [] else SnakeChar(key[0]) + SnakeKey(key[1..])
  }

  /** The inverse rewriting: `-` followed by a lower-case letter becomes that letter's capital. */
  function CamelKey(s: string): string {
    if s == [] then []
    else if |s| >= 2 && s[0] == '-' && IsLower(s[1]) then [ToUpper(s[1])] + CamelKey(s[2..])
    else [s[0]] + CamelKey(s[1..])
  }

  /** Snake-casing loses nothing on keys without hyphens: camel-casing recovers the key. */
  lemma {:induction false} CamelSnakeRoundTrip(key: string)
    requires '-' !in key
    ensures CamelKey(SnakeKey(key)) == key
  {
    if key != [] {
      var c, rest := key[0], key[1..];
      assert '-' !in rest by {
        forall i | 0 <= i < |rest| ensures rest[i] != '-' { assert rest[i] == key[i + 1]; }
      }
      CamelSnakeRoundTrip(rest);
      var s := SnakeKey(key);
      assert s == SnakeChar(c) + SnakeKey(rest);
      if IsUpper(c) {
        assert s[2..] == SnakeKey(rest);
        assert ToUpper(ToLower(c)) == c;
      } else {
        assert s[1..] == SnakeKey(rest);
      }
    }
  }

  /** A key without capitals (`color`) is left unchanged. */
  lemma {:induction false} SnakeKeyWithoutCapitals(key: string)
    requires forall i | 0 <= i < |key| :: !IsUpper(key[i])
    ensures SnakeKey(key) == key
  {
    if key != [] {
      SnakeKeyWithoutCapitals(key[1..]);
    }
  }

  /**
   * The object `toSnakeCase` builds from the entries of `obj`, listed in the
   * order `for...in` visits them: each entry in turn sets its snake-cased key,
   * so a later entry overwrites an earlier one whose key snake-cases the same.
   */
  function SnakeObject<V>(obj: seq<(string, V)>): map<string, V> {
    if obj == [] then map[]
    else SnakeObject(obj[..|obj| - 1])[SnakeKey(obj[|obj| - 1].0) := obj[|obj| - 1].1]
  }

  method ToSnakeCase<V>(obj: seq<(string, V)>) returns (newObj: map<string, V>)
    ensures newObj == SnakeObject(obj)
  {
    newObj := map[];
    var i := 0;
    while i < |obj|
      invariant 0 <= i <= |obj|
      invariant newObj == SnakeObject(obj[..i])
    {
      var (key, value) := obj[i];
      newObj := newObj[SnakeKey(key) := value];
      assert obj[..i + 1][..i] == obj[..i];
      i := i + 1;
    }
    assert obj[..|obj|] == obj;
  }

  /** The result has exactly the snake-cased keys of the input. */
  lemma {:induction false} SnakeObjectKeys<V>(obj: seq<(string, V)>)
    ensures forall key :: key in SnakeObject(obj) <==> exists i | 0 <= i < |obj| :: SnakeKey(obj[i].0) == key
  {
    if obj != [] {
      var front, last := obj[..|obj| - 1], obj[|obj| - 1];
      SnakeObjectKeys(front);
      forall key
        ensures key in SnakeObject(obj) <==> exists i | 0 <= i < |obj| :: SnakeKey(obj[i].0) == key
      {
        if key == SnakeKey(last.0) {
          assert SnakeKey(obj[|obj| - 1].0) == key;
        } else if key in SnakeObject(front) {
          var i :| 0 <= i < |front| && SnakeKey(front[i].0) == key;
          assert obj[i] == front[i];
        }
      }
    }
  }

  /** When no two keys snake-case alike, every key's value is kept under its snake-cased key. */
  lemma {:induction false} SnakeObjectValues<V>(obj: seq<(string, V)>)
    requires forall i, j | 0 <= i < j < |obj| :: SnakeKey(obj[i].0) != SnakeKey(obj[j].0)
    ensures forall i | 0 <= i < |obj| ::
      SnakeKey(obj[i].0) in SnakeObject(obj) && SnakeObject(obj)[SnakeKey(obj[i].0)] == obj[i].1
  {
    if obj != [] {
      var front := obj[..|obj| - 1];
      SnakeObjectValues(front);
      forall i | 0 <= i < |obj|
        ensures SnakeKey(obj[i].0) in SnakeObject(obj) && SnakeObject(obj)[SnakeKey(obj[i].0)] == obj[i].1
      {
        if i < |front| {
          assert front[i] == obj[i];
          assert SnakeKey(obj[i].0) != SnakeKey(obj[|obj| - 1].0);
        }
      }
    }
  }

  /** The expectation of `testSnakeStyle` in mod.test.ts. */
  lemma SnakeCaseTestExample()
    ensures SnakeObject([("fontSize", "3em"), ("textAlign", "center"), ("color", "#BF4F74")])
         == map["font-size" := "3em", "text-align" := "center", "color" := "#BF4F74"]
  {
    var e0, e1, e2 := ("fontSize", "3em"), ("textAlign", "center"), ("color", "#BF4F74");
    SnakeCaseTestPrefix();
    ColorKey();
    assert [e0, e1, e2][..2] == [e0, e1];
  }

  /** The first two entries of the example. */
  lemma SnakeCaseTestPrefix()
    ensures SnakeObject([("fontSize", "3em"), ("textAlign", "center")])
         == map["font-size" := "3em", "text-align" := "center"]
  {
    var e0, e1 := ("fontSize", "3em"), ("textAlign", "center");
    SnakeCaseTestFirst();
    TextAlignKey();
    assert [e0, e1][..1] == [e0];
  }

  /** The first entry of the example. */
  lemma SnakeCaseTestFirst()
    ensures SnakeObject([("fontSize", "3em")]) == map["font-size" := "3em"]
  {
    FontSizeKey();
    assert [("fontSize", "3em")][..0] == [];
  }

  lemma ColorKey()
    ensures SnakeKey("color") == "color"
  {
    SnakeKeyWithoutCapitals("color");
  }

  lemma FontSizeKey()
    ensures SnakeKey("fontSize") == "font-size"
  {
    assert "fontSize" == "font" + ['S'] + "ize";
    SnakeKeyWithoutCapitals("font");
    SnakeKeyWithoutCapitals("ize");
    SnakeKeyCapitalised("font", 'S', "ize");
    assert ToLower('S') == 's';
    assert "font" + ['-', 's'] + "ize" == "font-size";
  }

  lemma TextAlignKey()
    ensures SnakeKey("textAlign") == "text-align"
  {
    assert "textAlign" == "text" + ['A'] + "lign";
    SnakeKeyWithoutCapitals("text");
    SnakeKeyWithoutCapitals("lign");
    SnakeKeyCapitalised("text", 'A', "lign");
    assert ToLower('A') == 'a';
    assert "text" + ['-', 'a'] + "lign" == "text-align";
  }

  /** Snake-casing `head + C + tail` where `head` and `tail` are left unchanged: only `C` is rewritten. */
  lemma SnakeKeyCapitalised(head: string, c: char, tail: string)
    requires IsUpper(c)
    requires SnakeKey(head) == head && SnakeKey(tail) == tail
    ensures SnakeKey(head + [c] + tail) == head + ['-', ToLower(c)] + tail
  {
    var rest := [c] + tail;
    assert head + [c] + tail == head + rest;
    SnakeKeyAppend(head, rest);
    SnakeKeyCons(c, tail);
  }

  lemma SnakeKeyCons(c: char, tail: string)
    ensures SnakeKey([c] + tail) == SnakeChar(c) + SnakeKey(tail)
  {
    assert ([c] + tail)[1..] == tail;
  }

  lemma {:induction false} SnakeKeyAppend(a: string, b: string)
    ensures SnakeKey(a + b) == SnakeKey(a) + SnakeKey(b)
  {
    if a != [] {
      assert (a + b)[1..] == a[1..] + b;
      SnakeKeyAppend(a[1..], b);
    } else {
      assert a + b == b;
    }
  }

  /**
   * `s.replaceAll(target, replacement)` for a one-character target and a
   * replacement without `$` (JavaScript expands `$` patterns in a string
   * replacement; both replacements the runtime uses, `";"` and `""`, have none).
   */
  function ReplaceAll(s: string, target: char, replacement: string): (r: string)
    ensures target !in replacement ==> target !in r
    ensures forall c | c in r :: c in s || c in replacement
  {
    if s == [] then []
    else (if s[0] == target then replacement else [s[0]]) + ReplaceAll(s[1..], target, replacement)
  }

  lemma {:induction false} ReplaceAllAbsent(s: string, target: char, replacement: string)
    requires target !in s
    ensures ReplaceAll(s, target, replacement) == s
  {
    if s != [] {
      ReplaceAllAbsent(s[1..], target, replacement);
    }
  }

  /** On one character: the target becomes the replacement, any other character is kept. */
  lemma ReplaceAllChar(c: char, target: char, replacement: string)
    ensures ReplaceAll([c], target, replacement) == if c == target then replacement else [c]
  {
    assert [c][1..] == [];
  }

  /**
   * The replacement works character by character: with `ReplaceAllChar` this
   * says every target is replaced and every other character kept, in order.
   */
  lemma {:induction false} ReplaceAllAppend(a: string, b: string, target: char, replacement: string)
    ensures ReplaceAll(a + b, target, replacement)
         == ReplaceAll(a, target, replacement) + ReplaceAll(b, target, replacement)
  {
    if a != [] {
      assert (a + b)[1..] == a[1..] + b;
      ReplaceAllAppend(a[1..], b, target, replacement);
    } else {
      assert a + b == b;
    }
  }

  /**
   * The rule body `createElementObject` derives from the stringified style
   * object: commas become semicolons and double quotes are dropped.
   */
  function StyleObjectBody(json: string): (r: string)
    ensures ',' !in r && '"' !in r
  {
    ReplaceAll(ReplaceAll(json, ',', ";"), '"', "")
  }

  /** Applying the two replacements again changes nothing. */
  lemma StyleObjectBodyIdempotent(json: string)
    ensures StyleObjectBody(StyleObjectBody(json)) == StyleObjectBody(json)
  {
    var b := StyleObjectBody(json);
    ReplaceAllAbsent(b, ',', ";");
    ReplaceAllAbsent(b, '"', "");
  }

  /** On one character: a comma becomes `;`, a double quote is dropped, anything else is kept. */
  lemma StyleObjectBodyChar(c: char)
    ensures StyleObjectBody([c]) == if c == ',' then ";" else if c == '"' then "" else [c]
  {
    ReplaceAllChar(c, ',', ";");
    if c == ',' {
      ReplaceAllChar(';', '"', "");
    } else {
      ReplaceAllChar(c, '"', "");
    }
  }

  /** The rule body of a concatenation is the concatenation of the rule bodies. */
  lemma StyleObjectBodyAppend(a: string, b: string)
    ensures StyleObjectBody(a + b) == StyleObjectBody(a) + StyleObjectBody(b)
  {
    ReplaceAllAppend(a, b, ',', ";");
    ReplaceAllAppend(ReplaceAll(a, ',', ";"), ReplaceAll(b, ',', ";"), '"', "");
  }
}
