# styled-components for Deno, modelled in Dafny

This project models the runtime in `styled.ts` of a small "styled-components"
library for Preact. The library turns tagged CSS templates or style objects
into CSS rules. It writes those rules into the document's style sheets under
generated class names `styled-component-N`. It then tags each rendered
element with such a class.

The model has one module per concern:

- `Strings`: substring search (`includes`), the decimal text of an integer (as a
  template literal prints it), and `join`.
- `SnakeCase`: `toSnakeCase`, and the two `replaceAll` steps that turn a
  stringified style object into a rule body.
- `Template`: the loop, repeated at every entry point, that interleaves
  template fragments with interpolated values. It also holds the argument kinds
  that `isSupportElementArray` tells apart.
- `Naming`: the `UniqueUid` counter (a class with a mutable `uid`) and
  `generateClassName`.
- `StyleSheets`: the document's style-sheet list, as a class `Document` whose
  `sheets` field is a sequence of sheets. Each sheet is a sequence of rules,
  and each rule is a selector plus the exact text the code wrote. Its methods
  are `queryClassName`, `injectStyles`, `injectStylesObject`,
  `updateStylesCSS`, and appending a `<style>` element. Each method is proved
  against a pure function of the old sheet list.
- `Components`: the factories `createElement`, `createElementObject`,
  `createElementWithProps`, `recreateElement`, `dynamicCSS` and `css`. Each
  returned closure becomes an object. Its `Render` (or `Call`) is the
  closure's body, and the Preact call becomes the `VNode` it would receive.
- `Groups`: `AttributeGroup`, `StyleGroup` and `setAnimation`.
  Each `generate` appends one sheet, with one rule per `selector { body }`
  block its loop appends to the `innerHTML`.

The module-level counter `ID` and `document.styleSheets` are global in the
source. Here they are the explicit objects `UniqueUid` and `Document`, passed
to every operation that uses them.

The class a rendered element gets is not simply "the caller's `className`
when truthy, else the generated one". The code writes
`{ className: props.className || generated, ...restProps }`, and `restProps`
still holds the caller's `className`. So the spread overwrites the `||`
choice whenever the caller passed a `className` at all, even an empty one.
`Components.ChooseClassName` follows the code.

## Model

| member | source | states |
|---|---|---|
| Strings.NatToString | styled.ts:54 | the decimal text is non-empty and made of digits |
| Strings.ParseNatToString | styled.ts:54 | reading the decimal text back gives the number |
| Strings.NatToStringInjective | styled.ts:54 | different naturals have different decimal texts |
| Strings.IntToString | styled.ts:54 | the text of an integer is non-empty, digits only after its first character, which may be `-` |
| Strings.IntToStringInjective | styled.ts:54 | different integers have different texts |
| Strings.Join | styled.ts:437 | joining nothing gives ""; otherwise the length is the parts' total plus one separator between neighbours |
| Strings.JoinSingle | styled.ts:437 | a single part is joined to itself |
| Strings.JoinAppend | styled.ts:437 | joining two non-empty lists is joining each with one separator between them, which with `JoinSingle` fixes every character |
| SnakeCase.SnakeKey | styled.ts:26-29 | the rewritten key has no capital left and is at least as long as the key |
| SnakeCase.CamelSnakeRoundTrip | styled.ts:26-29 | for keys without `-`, turning each `-x` back into `X` recovers the original key |
| SnakeCase.SnakeKeyWithoutCapitals | styled.ts:26-29 | a key without capitals is unchanged |
| SnakeCase.SnakeKeyAppend | styled.ts:26-29 | the rewriting works character by character: it distributes over concatenation |
| SnakeCase.ToSnakeCase | styled.ts:19-33 | the loop builds the object that sets, entry by entry in order, the snake-cased key to the entry's value |
| SnakeCase.SnakeObjectKeys | styled.ts:25-31 | the result's keys are exactly the snake-cased input keys |
| SnakeCase.SnakeObjectValues | styled.ts:25-31 | when no two keys snake-case alike, each value is kept under its snake-cased key |
| SnakeCase.SnakeCaseTestExample | mod.test.ts:15-27 | `fontSize`, `textAlign`, `color` map to `font-size`, `text-align`, `color` with their values |
| SnakeCase.ReplaceAll | styled.ts:108-109 | the target character no longer occurs unless the replacement holds it; no new characters appear beyond the replacement's |
| SnakeCase.ReplaceAllAbsent | styled.ts:108-109 | replacing a character that does not occur changes nothing |
| SnakeCase.ReplaceAllChar | styled.ts:108-109 | on one character, the target becomes the replacement and any other character is kept |
| SnakeCase.ReplaceAllAppend | styled.ts:108-109 | the replacement distributes over concatenation, so every target is replaced and every other character kept in order |
| SnakeCase.StyleObjectBody | styled.ts:107-109 | the rule body holds neither `,` nor `"` |
| SnakeCase.StyleObjectBodyChar | styled.ts:108-109 | on one character, `,` becomes `;`, `"` is dropped and anything else is kept |
| SnakeCase.StyleObjectBodyAppend | styled.ts:108-109 | the rule body of a concatenation is the concatenation of the rule bodies |
| SnakeCase.StyleObjectBodyIdempotent | styled.ts:107-109 | applying the two replacements again changes nothing |
| Template.Interleave | styled.ts:140-147 | the result's length is the fragments' total length plus that of the arguments the loop reads (one per fragment, while there is one); its content is fixed by `InterleaveIsZip` |
| Template.BuildCss | styled.ts:140-147 | the `forEach` loop yields the interleaving of fragments and arguments |
| Template.InterleaveIsZip | styled.ts:140-147 | the loop's result equals the front-to-back reference `s0 + a0 + s1 + a1 + ... + sk` |
| Template.InterleaveFront | styled.ts:140-147 | the result is the first fragment (and first argument, if any) followed by the result for the rest |
| Template.InterleaveWithoutArgs | styled.ts:140-147 | with no arguments the body is the plain concatenation of the fragments |
| Template.InterleaveDropsExtraArgs | styled.ts:140-147 | arguments beyond the fragment count are never read |
| Template.IsSupportElementArray | styled.ts:170-177 | for the argument lists the declared type admits, the test holds exactly when every argument is a value |
| Naming.UniqueUid.constructor | styled.ts:36-41 | a non-zero argument becomes `uid`; an absent or zero one leaves `uid` at 0 |
| Naming.UniqueUid.Next | styled.ts:42-44 | `uid` grows by exactly one and the new value is returned |
| Naming.ClassName | styled.ts:54 | the name is `styled-component-` followed by an optional `-` and then digits only |
| Naming.ClassNameInjective | styled.ts:53-55 | different counter values give different class names |
| Naming.GenerateClassName | styled.ts:53-55 | the counter grows by one and the name is `styled-component-` followed by its new value |
| Naming.GenerateTwice | styled.ts:53-55 | two successive names from one counter differ |
| StyleSheets.HasClassAppend | styled.ts:57-68 | after a sheet is appended, the query finds a class exactly when it found it before or some rule of the new sheet mentions `.c ` |
| StyleSheets.ClassRule | styled.ts:73 | the rule `.c { s }` is well formed and holds `.c `, so the query finds it |
| StyleSheets.ObjectRule | styled.ts:81 | the rule `.c body` is well formed and holds `.c `, so the query finds it |
| StyleSheets.Document.QueryClassName | styled.ts:57-68 | true exactly when some rule of some sheet contains `.c ` |
| StyleSheets.QueryDistinguishesClasses | styled.ts:61-62 | the rule written for one generated class never answers the query for a different one, unless its styles spell out that class |
| StyleSheets.QueryMissesOtherRule | styled.ts:61-62 | `.x ` does not occur in `.y { styles }` when x and y differ, x has no space, y no space or dot, and the styles do not hold it |
| StyleSheets.SpaceEndsToken | styled.ts:61-62 | a text starting `.y ` starts with `.x ` only if x equals y, for x and y without spaces |
| StyleSheets.ClassNameCharacters | styled.ts:54 | a generated class name holds neither `.` nor a space |
| StyleSheets.Injected | styled.ts:70-76 | the sheets are unchanged if the class is present; otherwise one sheet holding `.c { s }` is appended |
| StyleSheets.Document.InjectStyles | styled.ts:70-76 | the new sheet list is the injected one |
| StyleSheets.InjectedHasClass | styled.ts:70-76 | after an injection the class is present |
| StyleSheets.InjectIdempotent | styled.ts:70-76 | injecting twice equals injecting once, whatever the second styles |
| StyleSheets.InjectedObject | styled.ts:78-84 | the sheets are unchanged if the class is present; otherwise one sheet holding `.c body` is appended |
| StyleSheets.Document.InjectStylesObject | styled.ts:78-84 | the new sheet list is the object-injected one |
| StyleSheets.InjectedObjectHasClass | styled.ts:78-84 | after an object injection the class is present |
| StyleSheets.InjectObjectIdempotent | styled.ts:78-84 | injecting an object twice equals injecting it once |
| StyleSheets.FindInSheet | styled.ts:92-98 | the first rule of a sheet whose selector is exactly the given one, or none |
| StyleSheets.FindSelector | styled.ts:90-100 | none exactly when no rule has the selector; otherwise the first match, sheet by sheet and rule by rule |
| StyleSheets.Updated | styled.ts:86-101 | sheet and rule counts are kept; when `.c ` is present, the first rule with selector exactly `.c` becomes `.c { s }`; no other rule changes; nothing changes when the class is absent or no selector matches |
| StyleSheets.Document.UpdateStylesCss | styled.ts:86-101 | the nested loops leave exactly the updated sheet list |
| StyleSheets.DeleteThenInsert | styled.ts:95-96 | `deleteRule(j)` then `insertRule(r, j)` replaces rule j in place |
| StyleSheets.UpdateIdempotent | styled.ts:86-101 | updating twice with the same styles equals updating once |
| StyleSheets.InjectThenUpdate | styled.ts:384-392 | for a class that was absent from well-formed sheets, inject-then-update leaves the sheets that injecting the final styles would |
| StyleSheets.FindSelectorAppend | styled.ts:90-100 | appending a sheet without the selector does not move the rule an update rewrites |
| StyleSheets.Document.AppendSheet | styled.ts:74 | appending a `<style>` element adds its rules as a new last sheet |
| Components.ChooseClassName | styled.ts:119-122 | a class the caller passed is used as given; without one the generated class is used |
| Components.StaticElement.Render | styled.ts:135-158 | a render injects the interleaved CSS under the component's class and renders the tag with the chosen class |
| Components.CreateElement | styled.ts:129-160 | the class is drawn once, when the component is made |
| Components.ObjectElement.Render | styled.ts:111-125 | a render injects the object body under the component's class and renders the tag with the chosen class |
| Components.CreateElementObject | styled.ts:103-127 | the body is the two replacements applied to the stringified snake-cased object, and the class is drawn once |
| Components.PropsElement.constructor | styled.ts:191-220 | the props cache starts empty |
| Components.PropsElement.Render | styled.ts:191-220 | on a hit nothing is generated or injected and the cache is unchanged; on a miss one class is generated, injected with the CSS for these props and cached; the props are cached afterwards |
| Components.CreateElementWithProps | styled.ts:182-223 | value arguments give a `createElement` component that draws one class; callback arguments give a props-keyed component with an empty cache that draws none yet |
| Components.RecreatedElement.Render | styled.ts:248-262 | a render injects the CSS under the element's class and renders the wrapped component with the chosen class |
| Components.RecreateElement | styled.ts:228-265 | the CSS is built once; the generated class comes after the component's own class name when it has one |
| Components.DynamicCss.constructor | styled.ts:373-395 | the class starts undefined |
| Components.DynamicCss.Call | styled.ts:369-397 | the first call generates, stores and injects a class; later calls return the stored class, draw nothing and only update its rule |
| Components.Css | styled.ts:403-421 | draws a fresh class, injects the template's CSS under it and returns it |
| Groups.WithIndexEntries | styled.ts:430-432 | the loop over `for...in` keys sets the entries "0" to "n-1" and leaves every other entry as it was |
| Groups.FillIndexEntries | styled.ts:442-445 | the loop leaves exactly the index-keyed map |
| Groups.MapText | styled.ts:476 | a stored body is printed as is; a key never set prints as `undefined` |
| Groups.AttributeRules | styled.ts:474-477 | line i is `.g[key_i] { maps[key_i] }`, one line per key in key order |
| Groups.AttributeSheet | styled.ts:471-477 | the base line `.g { base }` comes first, then one line per key |
| Groups.AttributeGroup.constructor | styled.ts:428-434 | index entries are blank, the base is empty and a group class is drawn |
| Groups.AttributeGroup.InitBaseCss | styled.ts:436-439 | the base is the fragments joined with single spaces, nothing else changes |
| Groups.AttributeGroup.Init | styled.ts:441-446 | every index entry is set to `initfn` of the index, nothing else changes |
| Groups.AttributeGroup.SetCss | styled.ts:448-464 | only the given key's entry is overwritten, with the interleaved CSS |
| Groups.AttributeLines | styled.ts:472-477 | the loop yields the base line and one line per key, and the text of those lines |
| Groups.AttributeGroup.Generate | styled.ts:471-481 | appends one sheet holding the attribute sheet, and the `innerHTML` is its lines |
| Groups.StyleSelectorsDistinct | styled.ts:555-557 | for keys without a dot, different keys of one group get different selectors, `.key` for the main key and `.main.key` for the others |
| Groups.StyleRuleShape | styled.ts:555-559 | the line of a key is a well-formed rule under its selector whose text holds the key's body |
| Groups.StyleSheetLines | styled.ts:553-560 | line i of a style group's sheet is the rule of key i |
| Groups.StyleGroup.constructor | styled.ts:508-514 | index entries are blank |
| Groups.StyleGroup.Init | styled.ts:516-521 | every index entry is set to `initfn` of the index |
| Groups.StyleGroup.SetCss | styled.ts:523-539 | only the given key's entry is overwritten, with the interleaved CSS |
| Groups.StyleLines | styled.ts:548-560 | the loop yields the map of every key to itself, the style sheet and its text |
| Groups.SelfMapMeaning | styled.ts:548-554 | the returned object's keys are exactly the group's keys, each mapped to itself |
| Groups.StyleGroup.Generate | styled.ts:545-566 | returns each key mapped to itself and appends one sheet with `.key` for the main key and `.main.key` for the others |
| Groups.SetAnimation | styled.ts:484-502 | appends one sheet holding `@keyframes name { css }` |
| Groups.KeyframesRule | styled.ts:497 | the rule `@keyframes name { css }` is well formed, holds the CSS, and its selector starts with `@` |
| Groups.KeyframesUntouchedByUpdate | styled.ts:497 | a keyframes sheet never holds the rule an update of a class rewrites |
| Groups.NamedKeyNotIndex | styled.ts:430-432 | a key with a non-digit character is never one of the index keys |
| Groups.InitByIndexLeavesKeysUndefined | styled.ts:441-446 | as written, after construction and `init` the line for key `primary` reads `{ undefined }` |
| Groups.WithNamedEntries | styled.ts:442-445 | setting entries by key name covers every key with `f(key)` and keeps all other entries |
| Groups.InitByNameFillsEveryLine | styled.ts:471-477 | with entries set by key name, every attribute line carries `f(key)` |

## Findings

| source | as written | input that shows it | evidently intended | confidence | as-written member | corrected member |
|---|---|---|---|---|---|---|
| styled.ts:428-446 | `for (const key in keys)` visits the array's indices "0", "1", ..., so the constructors and `init` of both groups (also styled.ts:511-520) set entries the generated lines never read | `new AttributeGroup(["primary"])`, then `init(() => "color: red")`, then `generate()` writes `.g[primary] { undefined }` | iterate the key names (`for...of`), so every line carries `initfn(key)` | not executed | Groups.InitByIndexLeavesKeysUndefined | Groups.InitByNameFillsEveryLine |

The classes `AttributeGroup` and `StyleGroup` keep the behaviour as written,
so that they model what the code does. The corrected map is
`Groups.WithNamedEntries`.

## Left out

- The Preact call `createPreactElement` and the rendered tree: a foreign call, modelled as the `VNode` (element type, class) it receives; children and other props are not modelled.
- The browser's parsing of `<style>` text into rules and its normalisation of `cssText`: a rule's text is exactly the string the code wrote, and the `innerHTML` of a group or an animation gives one rule per `selector { body }` block the loop appends, even when a body spans several lines.
- `JSON.stringify(obj, null, 2)` in `createElementObject`: a foreign call, taken as a function parameter; only the two `replaceAll` steps are modelled.
- Components.CreateElementObject: the key order of the snake-cased object is not modelled. `stringify` receives a map, so its output cannot depend on the order in which `toSnakeCase` inserted the keys. `JSON.stringify` prints keys in that order (integer-like keys first), and for a shorthand and longhand pair such as `margin` and `marginTop` the order changes the rendered style.
- Components.CreateElementObject: style values are strings only; numbers, which `JSON.stringify` prints without quotes, are not modelled.
- Numbers as interpolated values: every value is taken in its string form; a number's text is not modelled.
- Components.ChooseClassName: `props.className?.toString()` is not modelled; the caller's class is taken as a string.
- Components.ChooseClassName: an explicit `className={undefined}` is not modelled. In the source the key is then present in `restProps`, so the spread writes `undefined` and the element gets no class at all; here an absent class (`None`) always gives the generated class.
- DOM failures are not modelled. `sheet.insertRule` (styled.ts:96) throws on text that is not exactly one rule, after `deleteRule` (styled.ts:95) has already removed the old rule. Reading `style.cssRules` (styled.ts:60) throws for a cross-origin sheet. Here `InsertRule` and `Document.QueryClassName` always succeed.
- Naming.UniqueUid: `uid` is an unbounded integer; NaN, fractions and float precision are not modelled.
- Components.PropsElement: the `Map` keyed by the props object's identity is a map keyed by the props value.
- The curried closures (`setCSS(key)`, `setAnimation(name)`, `recreateElement(component)`) take all their arguments in one call.
- The getters `groupName` and `mainKey` are plain fields.
- The `domElements.forEach` registration of per-tag helpers (styled.ts:276-291): depends on `domElements.ts`, which is not part of this model; its dispatch is the one in `isSupportElementArray`.
- The `testStyledLen` test: counts the helpers registered from `domElements.ts`, which is not part of this model.
- `styled.tsx`, `types.ts`, `mod.ts` and the `example/` folder: a thin Preact wrapper, type aliases, a re-export, and dev tooling.
