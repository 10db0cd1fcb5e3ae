# jsx2overreact in Dafny

jsx2overreact turns JSX source into OverReact, the Dart cascade syntax for
React components. A DOM tag such as `<div>` becomes the factory call
`Dom.div()`. A capitalised tag such as `<HelloWorld>` becomes `HelloWorld()`.
Attributes become cascade setters (`..omg = 'lol'`) inside a parenthesised
builder. Children become a second parenthesised argument list. The repository
holds three independent converters and one HTML/JSON helper. This project
models all four.

- `Generator` (`generator.dfy`, lemmas in `generator_props.dfy`) models the
  astring-based converter in `utils/jsx2overreact-generator.ts`. It is a class
  `RenderState` with astring's `output` buffer and `indentLevel` counter. It
  has one method per custom handler, and every handler method is proved against
  the specification function `Render(node, level)`. A handler either writes
  text (`Ok`) or stops with a `Failure`: a missing handler (a TypeError), a
  handler inherited from astring that is outside the model, or endless
  recursion.
- `StringRenderer` (`string_renderer.dfy`, `string_renderer_props.dfy`) and
  `Cleanup` (`cleanup.dfy`) model the string-building converter in
  `utils/jsx2overreact.ts`. This covers `convertJSXChild`, its loops over
  attributes and children, the `cleanString` rule, the object-literal writer,
  and the three regular-expression rewrites it applies to its output.
  `Cleanup` proves what each rewrite removes or inserts and when it is the
  identity.
- `RecordRenderer` (`record_renderer.dfy`, `record_renderer_props.dfy`) models
  `jsxElementToOverReactString` in `index.ts`. That function works on the
  records jsx-parser produces (`type`, `props`, `children`, `nodeValue`). The
  expectations of `index.test.ts` are proved as lemmas about it.
- `HtmlJson` (`html_json.dfy`, `html_json_props.dfy`) models `utils/html2json.ts`:
  - `removeDOCTYPE`, with its three regular expressions, which are not anchored
    to a line start: each `replace` removes the leftmost match only, wherever in a
    line it begins;
  - the attribute reducer, which merges repeated names into arrays;
  - the tree builder as a class `TreeBuilder` whose `stack` and `results`
    fields the parser's `start`, `end`, `chars` and `comment` callbacks update;
  - `json2html`.

  The main theorem is a round trip. For every well-nested stream of parser
  events whose empty HTML 4.01 tags are exactly the unary ones and whose
  attribute names are distinct, `json2html(html2json(events))` gives back the
  markup of the events.
- `Text` (`text.dfy`) holds the JavaScript string operations the converters
  rely on: `trim`, `startsWithCapital` (the same code in all three
  converters), `repeat`, `join`, `split`, `indexOf`, `replace`,
  `replaceAll` and `JSON.stringify` on strings. `Estree` (`estree.dfy`) holds
  the ESTree node type shared by the two meriyah-based converters.

The parsers (meriyah, jsx-parser, html5parser) are outside the model. Their
output — an ESTree node, a jsx-parser record, or a sequence of parser
callbacks — is the model's input.

Where the code and its written description disagree, the model follows the
code. In particular:
- `formatJSXFragment` keeps only the whitespace-only text children. It writes
  each of them as `''`, with no separator.
- `html2json`'s `end` pops the innermost open element whatever tag it names.
- `html2json`'s `comment` fails when no element is open.
- `json2html` joins a nested array value with commas, because `String(array)`
  is what `Array.prototype.join` applies to an element that is itself an
  array.

## Model

| member | source | states |
|---|---|---|
| Text.TrimSpec | utils/jsx2overreact.ts:188 | `trim` returns the slice of its input between two whitespace-only margins; the slice is empty exactly when the input is whitespace only, and otherwise starts and ends with non-whitespace |
| Text.StartsWithCapital | utils/jsx2overreact.ts:49-52 | a word is capital exactly when it is non-empty and its first character is not a lower-case letter (ASCII upper-casing) |
| Text.SplitJoin | utils/html2json.ts:45-47 | joining the pieces of `split(c)` with `c` gives the string back |
| Text.SplitPieces | utils/html2json.ts:45-47 | no piece of `split(c)` contains `c` |
| Text.IndexFromSpec | utils/jsx2overreact-generator.ts:233-234 | `indexOf` returns the first position where the pattern occurs, or -1 exactly when it occurs nowhere |
| Text.ReplaceFirstSpec | utils/jsx2overreact-generator.ts:234 | `replace` with a string pattern rewrites exactly the first occurrence and leaves a string without one unchanged |
| Text.ReplaceAllChar | utils/jsx2overreact.ts:192 | `replaceAll` of a character leaves a string without it unchanged, and removes every occurrence when the replacement does not contain it; with a one-character replacement the length is kept and each position holds the replacement where the input held the pattern and the input's own character elsewhere |
| Text.ReplaceAllCharUnit | utils/jsx2overreact.ts:192 | on one character, `replaceAll` gives the replacement for the pattern and the character itself otherwise; with `ReplaceAllCharAppend` this fixes the result for every string |
| Text.JsonQuote | utils/jsx2overreact.ts:115-117 | `JSON.stringify` of a string is delimited by double quotes |
| Text.SingleQuotedSpec | utils/jsx2overreact.ts:115-117 | `formatValue` yields a text delimited by single quotes that contains no double quote |
| Cleanup.CollapseLeavesNoWideEquals | utils/jsx2overreact.ts:152 | after the `/= {2,}/g` rewrite, no `=` is followed by two spaces |
| Cleanup.CollapseRemovesOnlySpaces | utils/jsx2overreact.ts:152 | that rewrite removes only spaces: the non-space characters survive, in order |
| Cleanup.CollapseAfterPrefix | utils/jsx2overreact.ts:152 | a prefix without `=` is untouched by that rewrite |
| Cleanup.CollapseIdentity | utils/jsx2overreact.ts:152 | text in which no `=` is followed by two spaces is returned unchanged |
| Cleanup.CollapseMatchNext | utils/jsx2overreact.ts:152 | a match, `=` with its whole run of two or more spaces, becomes exactly `= ` followed directly by the character that ended the run |
| Cleanup.BreakOnlyInsertsLineFeeds | utils/jsx2overreact.ts:184 | the `/\)( {2,})\)/g` rewrite only inserts line feeds: removing line feeds from input and output gives the same text |
| Cleanup.BreakMatch | utils/jsx2overreact.ts:184 | at a match, `)`, its spaces and `)` become `)`, a line feed, the same spaces and `)` |
| Cleanup.BreakIdentity | utils/jsx2overreact.ts:184 | without `)` followed by two spaces, that rewrite changes nothing |
| Cleanup.DropLeavesNoCommaLine | utils/jsx2overreact.ts:184 | after the multiline `/^,(\r\n\|\n\|\r)/gm` rewrite, no line starts with a comma followed by a line break |
| Cleanup.DropIdentity | utils/jsx2overreact.ts:184 | without a comma before a line break, that rewrite changes nothing |
| Cleanup.Tidy | utils/jsx2overreact.ts:184 | the output of both final rewrites has no line that starts with a comma and a line break |
| Cleanup.TidyHead | utils/jsx2overreact.ts:184 | both rewrites keep the first character unless it is a comma |
| Cleanup.TidyIdentity | utils/jsx2overreact.ts:184 | a text with neither pattern is returned unchanged |
| Cleanup.NoRewriteAppend | utils/jsx2overreact.ts:184 | two texts without either pattern, joined where no match can straddle the seam, still have neither pattern |
| Cleanup.TidyPrefix | utils/jsx2overreact.ts:184 | both rewrites keep a leading part that holds neither `)` nor `,` |
| Cleanup.TidyCloseTail | utils/jsx2overreact.ts:184 | both rewrites keep a final `)`, and a `,\n` written after it comes through unchanged |
| StringRenderer.ConvertName | utils/jsx2overreact.ts:233-249 | a member expression yields its property name; a namespaced name, on which the source recurses forever, yields nothing |
| StringRenderer.FactoryName | utils/jsx2overreact.ts:223-231 | a capital name stays as it is; any other name, the empty one included, gets the `Dom.` prefix |
| StringRenderer.ConvertElementName | utils/jsx2overreact.ts:223-231 | an element name converts exactly when it is not namespaced, and the result is never empty |
| StringRenderer.RemoveBreaks | utils/jsx2overreact.ts:189 | the result contains no `\n` or `\r`, and is exactly the other characters of the input, in order |
| StringRenderer.CleanStringSpec | utils/jsx2overreact.ts:187-194 | `cleanString` is empty exactly for whitespace-only text; otherwise it is the trimmed text, with `'` escaped, in single quotes; it is never a lone line feed |
| StringRenderer.EscapeKeepsText | utils/jsx2overreact.ts:192 | escaping only inserts backslashes: with backslashes removed, the escaped text equals the input |
| StringRenderer.QuotesEscaped | utils/jsx2overreact.ts:192 | every `'` of the escaped text is preceded by a backslash |
| StringRenderer.ConvertStatement | utils/jsx2overreact.ts:61-72 | a statement other than an expression statement contributes the empty string |
| StringRenderer.JsxToOverReactString | utils/jsx2overreact.ts:13-19 | the loop returns the statements' texts one after another, and returns a result exactly when every statement converts |
| StringRenderer.ConvertObjectExpression | utils/jsx2overreact.ts:101-113 | the loop computes `ObjectText`, a single-quoted string |
| StringRenderer.AppendAttributes | utils/jsx2overreact.ts:149-154 | the attribute loop appends exactly the attribute lines, or fails when an attribute does not convert |
| StringRenderer.OpenElement | utils/jsx2overreact.ts:146-154 | the opening text is the indented factory call (parenthesised when there are props) followed by the attribute lines |
| StringRenderer.ConvertKids | utils/jsx2overreact.ts:159 | map-then-filter yields the converted children that are not empty, in order |
| StringRenderer.AppendKids | utils/jsx2overreact.ts:160-162 | the child loop appends each surviving child followed by the separator its count selects |
| StringRenderer.CloseElement | utils/jsx2overreact.ts:155-171 | the closing text is the child block, `)()` or `()`, followed by the trailing comma rule |
| StringRenderer.ConvertElement | utils/jsx2overreact.ts:134-172 | an element's text is its opening followed by its closing, and fails when an attribute or child fails |
| StringRenderer.ConvertText | utils/jsx2overreact.ts:174-184 | a text child becomes its cleaned text on an indented line, after the final rewrites |
| StringRenderer.ConvertJSXChild | utils/jsx2overreact.ts:130-185 | the method computes `ChildText`, the specification of `convertJSXChild` |
| StringRendererProps.KidTextsSpec | utils/jsx2overreact.ts:159 | the children convert exactly when each does, and the kept texts are the non-empty converted texts in order |
| StringRendererProps.AttributeLinesSpec | utils/jsx2overreact.ts:149-154 | the attribute block converts exactly when each attribute does, and is one line per attribute in source order |
| StringRendererProps.AttributeLineSpec | utils/jsx2overreact.ts:151-152 | an attribute line starts with its indentation, has no `=` followed by two spaces, and keeps every non-space character of the attribute text |
| StringRendererProps.AttributeForms | utils/jsx2overreact.ts:196-221 | a spread attribute writes nothing; an attribute without a value is set to `null`; a string value is passed through `cleanString` |
| StringRendererProps.ExpressionForms | utils/jsx2overreact.ts:74-99 | an identifier writes its name; a string literal is single-quoted; a container writes its expression; an unhandled kind starts with `EXPRESSION IDK: ` |
| StringRendererProps.ObjectTextQuoted | utils/jsx2overreact.ts:101-117 | an object converts exactly when its properties do, into a single-quoted text that contains no double quote |
| StringRendererProps.EmptyObject | utils/jsx2overreact.ts:101-113 | `{}` becomes `'{}'` |
| StringRendererProps.ElementOpening | utils/jsx2overreact.ts:146-148 | the text `convertJSXChild` returns for an element, after the final rewrites, starts with its indentation, followed by `(` exactly when it has props (for a factory name without `(`, `)` or `,`, which an identifier never holds) |
| StringRendererProps.ChildlessElement | utils/jsx2overreact.ts:146-168 | the text `convertJSXChild` returns for an element without children, after the final rewrites, is exactly the indented `(name()` line, the attribute lines and `)()` on its own indented line when it has props, and the indented `name()()` otherwise; stated for attribute lines in which the rewrites find nothing |
| StringRendererProps.CommaRule | utils/jsx2overreact.ts:160-162 | several kept children are joined and followed by `,\n`; a single one stands alone |
| StringRendererProps.ElementEnding | utils/jsx2overreact.ts:155-184 | the text `convertJSXChild` returns for an element with more than one kept child, after the final rewrites, ends in `),\n`; for every other element it ends in `)` |
| StringRendererProps.TidyChildless | utils/jsx2overreact.ts:164-184 | the final rewrites leave a childless element's output unchanged when its name and attribute lines give them nothing to match |
| StringRendererProps.ElementConverts | utils/jsx2overreact.ts:130-172 | an element converts exactly when its name is not namespaced and all its attributes and children convert |
| StringRendererProps.ChildTextClean | utils/jsx2overreact.ts:184 | no line of a converted child starts with a comma and a line break |
| StringRendererProps.TextChild | utils/jsx2overreact.ts:174-180 | a text child is dropped exactly when it is whitespace only; otherwise it is its cleaned text on an indented line |
| StringRendererProps.BareCallKept | utils/jsx2overreact.ts:184 | a bare `()()` call whose head has no `)` or `,` survives the final rewrites |
| StringRendererProps.EmptyElement | utils/jsx2overreact.ts:130-185 | an element with neither attributes nor children is `name()()` at its depth |
| RecordRenderer.FactoryForm | index.ts:19 | the factory is the tag itself when it is capital, and `Dom.` + the tag otherwise |
| RecordRenderer.PropValueText | index.ts:22 | a plain prop is single-quoted; an evaluated prop that yields JSON is that JSON, of the same length, with each double quote turned single and every other character kept in place; an empty `nodeValue` prints the object's string form |
| RecordRenderer.PropsThrowAt | index.ts:21-23 | the prop loop throws exactly when one of the props fails to evaluate |
| RecordRenderer.ChildrenThrowAt | index.ts:28-30 | the child loop throws exactly when the call on one of the children throws |
| RecordRenderer.AppendProps | index.ts:20-24 | the prop loop throws exactly when some prop fails to evaluate, and otherwise appends one line per prop, in order |
| RecordRenderer.AppendChildren | index.ts:28-30 | the child loop throws exactly when some child's call does, and otherwise appends each child's text, each followed by `,\n` when there are several children |
| RecordRenderer.AppendClosing | index.ts:25-36 | the part after the props is the child block, `)()` or `()`, and it throws exactly when a child's call does |
| RecordRenderer.JsxElementToOverReactString | index.ts:13-41 | the method throws exactly when `Throws` holds (a prop somewhere in the tree fails to evaluate), and otherwise returns `RecordText`, the specification of `jsxElementToOverReactString` |
| RecordRendererProps.TextNodeLayout | index.ts:14-16 | a text node is its indentation, its value in single quotes and a line feed |
| RecordRendererProps.ElementOpening | index.ts:17-19 | an element starts with its indentation, then `(` exactly when it has props, then its factory call |
| RecordRendererProps.ChildlessElement | index.ts:32-36 | an element without children ends in `)()` on its own indented line when it has props, and in `()()` otherwise |
| RecordRendererProps.ElementEnding | index.ts:25-40 | an element with more than one child ends in `),\n`; every other element ends in `)` |
| RecordRendererProps.PropLinesInOrder | index.ts:20-24 | the prop lines are one line per prop, in the order the props are visited |
| RecordRendererProps.PropLineForms | index.ts:22 | a plain prop line is `..name = 'value'`; an evaluated prop line holds no double quote in its value |
| RecordRendererProps.CommaRule | index.ts:28-30 | several children are joined by `,\n` and followed by `,\n`; a single child stands alone |
| RecordRendererProps.ElementWithChildren | index.ts:17-39 | an element with children is, in closed form, its indented factory call (with `(`, the prop lines and `)` when it has props), `(` and a line feed, then the children's texts joined by `,\n` and followed by `,\n` when there are several (the lone child's text otherwise), then `)` at its indent, then `,\n` when there are several children |
| RecordRendererProps.NestedListDoubleComma | index.ts:28-39 | a child with several children inside a parent with several children produces `),\n,\n`: two trailing commas |
| RecordRendererProps.SoleChild | index.ts:17-40 | the full text of a prop-less element with one child |
| RecordRendererProps.SoleChildWithProps | index.ts:17-40 | the full text of an element with props and one child |
| RecordRendererProps.TwoChildren | index.ts:17-40 | the full text of a prop-less element with two children |
| RecordRendererProps.QuotedText | index.test.ts:10-16 | a top-level text node is its value in single quotes, followed by a line feed |
| RecordRendererProps.DomFactory | index.test.ts:18-26 | `<div>hello world</div>` gives `Dom.div()(`, the indented quoted text and `)` |
| RecordRendererProps.CapitalFactory | index.test.ts:28-36 | `<HelloWorld>hello world</HelloWorld>` keeps `HelloWorld()` as its factory |
| RecordRendererProps.CascadeSetter | index.test.ts:38-48 | a prop becomes the cascade setter `..omg = 'lol'` inside `(HelloWorld()` … `)(` |
| RecordRendererProps.StringProp | index.test.ts:65-74 | a string prop keeps its single quotes, and a childless element ends in `)()` |
| RecordRendererProps.EvaluatedProp | index.test.ts:76-82 | an evaluated prop writes its JSON, so `{true}` gives `..prop = true` |
| RecordRendererProps.ThrowsFromProp | index.ts:21-23 | one prop that fails to evaluate makes the element's call throw |
| RecordRendererProps.ThrowsFromChild | index.ts:28-30 | a child whose call throws makes its parent's call throw |
| RecordRendererProps.NoFailureNoThrow | index.ts:13-41 | an element whose props all evaluate and whose children do not throw does not throw |
| RecordRendererProps.FreeIdentifierInChild | index.ts:22 | a prop expression that fails to evaluate inside a child of a `div` makes the whole call throw |
| RecordRendererProps.EmptyExpressionNoThrow | index.ts:22 | an empty `nodeValue` is never evaluated, so it cannot throw |
| RecordRendererProps.MapProp | index.test.ts:84-93 | the JSON `{"test":"omg"}` is written as `{'test':'omg'}` |
| RecordRendererProps.NestedChildren | index.test.ts:95-113 | the text of the deeply nested fixture, including the `,\n` after each child of `div` and after `div` itself |
| Generator.FormatElementName | utils/jsx2overreact-generator.ts:194-220 | `formatElementName` fails exactly on a namespaced name; a capital name stays, and any other name gets `Dom.` |
| Generator.IdentifierTextSpec | utils/jsx2overreact-generator.ts:232-238 | a name without `aria-` is written as it is; otherwise exactly its first `aria-` becomes `aria.` |
| Generator.RenderState.Reindent | utils/jsx2overreact-generator.ts:20-34 | `reindent` appends the trimmed lines of the text, joined by the line end and the indentation |
| Generator.RenderState.Generate | utils/jsx2overreact-generator.ts:227-393 | dispatching on the node's type writes `Render(node, indentLevel)`, or reports its failure, and restores the indentation level |
| Generator.RenderState.GenerateJsx | utils/jsx2overreact-generator.ts:227-247 | the same for the JSX node kinds |
| Generator.RenderState.GenerateScript | utils/jsx2overreact-generator.ts:248-392 | the same for the script node kinds |
| Generator.RenderState.WriteJSXText | utils/jsx2overreact-generator.ts:242-247 | the `JSXText` handler writes the trimmed text between single quotes |
| Generator.RenderState.WriteLiteral | utils/jsx2overreact-generator.ts:248-260 | the `Literal` handler writes the raw text when present, else the regular expression, the BigInt with `n`, or the single-quoted JSON |
| Generator.RenderState.WriteRegExpLiteral | utils/jsx2overreact-generator.ts:334-337 | `/pattern/flags` |
| Generator.RenderState.WriteJSXIdentifier | utils/jsx2overreact-generator.ts:232-238 | the `JSXIdentifier` handler writes the name with its first `aria-` turned into `aria.` |
| Generator.RenderState.FormatJSXAttribute | utils/jsx2overreact-generator.ts:157-169 | `formatJSXAttribute` writes `RenderAttribute`: `..name = value`, or `= null` without a value |
| Generator.RenderState.FormatJSXElement | utils/jsx2overreact-generator.ts:83-128 | `formatJSXElement` writes `RenderElement` and restores `indentLevel` |
| Generator.RenderState.FormatJSXFragment | utils/jsx2overreact-generator.ts:130-155 | `formatJSXFragment` writes `RenderFragment` and restores `indentLevel` |
| Generator.RenderState.WriteProperty | utils/jsx2overreact-generator.ts:261-280 | the `Property` handler writes `RenderProperty` |
| Generator.RenderState.WriteObjectExpression | utils/jsx2overreact-generator.ts:281-333 | the `ObjectExpression` handler writes `RenderObject` and restores `indentLevel` |
| Generator.RenderState.WriteArrayExpression | utils/jsx2overreact-generator.ts:353-374 | the `ArrayExpression` handler writes `RenderArray` |
| Generator.RenderState.WriteArrayPattern | utils/jsx2overreact-generator.ts:375-381 | the `ArrayPattern` handler writes `RenderPattern` |
| Generator.RenderState.FormatSequence | utils/jsx2overreact-generator.ts:171-187 | `formatSequence` writes the nodes in parentheses, separated by `, ` |
| Generator.RenderState.WriteArrowFunction | utils/jsx2overreact-generator.ts:338-352 | the `ArrowFunctionExpression` handler writes `RenderArrow` |
| Generator.RenderState.WriteVariableDeclarator | utils/jsx2overreact-generator.ts:382-388 | the `VariableDeclarator` handler writes the id, then ` = ` and the initialiser when there is one |
| Generator.RenderState.FormatVariableDeclaration | utils/jsx2overreact-generator.ts:63-81 | `formatVariableDeclaration` writes `var ` and the declarators separated by `, ` |
| Generator.RenderState.WriteVariableDeclaration | utils/jsx2overreact-generator.ts:389-392 | the `VariableDeclaration` handler adds `;` |
| GeneratorProps.LinesConcat | utils/jsx2overreact-generator.ts:115-125 | a loop of lines succeeds exactly when every item renders, and writes the items' texts in order |
| GeneratorProps.JoinedJoin | utils/jsx2overreact-generator.ts:294-306 | a separated loop succeeds exactly when every item renders, and writes their join |
| GeneratorProps.ElementsJoin | utils/jsx2overreact-generator.ts:358-371 | array elements are joined by `, `, and a hole writes nothing |
| GeneratorProps.KeptChildrenAreKept | utils/jsx2overreact-generator.ts:91-96 | the element filter keeps only children that are not whitespace-only text |
| GeneratorProps.BlankTextsAreBlank | utils/jsx2overreact-generator.ts:136-138 | the fragment filter keeps only whitespace-only text |
| GeneratorProps.FiltersComplementary | utils/jsx2overreact-generator.ts:91-138 | a child passes the element filter exactly when it fails the fragment filter |
| GeneratorProps.BlankChildIgnored | utils/jsx2overreact-generator.ts:91-96 | inserting a whitespace-only text child anywhere leaves an element's output unchanged |
| GeneratorProps.ElementSpec | utils/jsx2overreact-generator.ts:83-128 | an element renders exactly when its attributes and kept children do, and its text is the head, the attribute block and the child block, in closed form |
| GeneratorProps.ElementOpensWithParen | utils/jsx2overreact-generator.ts:100-101 | an element's text starts with `(` exactly when it has attributes |
| GeneratorProps.LoneChildTrailingComma | utils/jsx2overreact-generator.ts:114-126 | even a single child is followed by `,` and a line end |
| GeneratorProps.HelloWorldElement | utils/jsx2overreact-generator.ts:83-128 | `<div>hello world</div>` renders as `Dom.div()(\n  'hello world',\n)` |
| GeneratorProps.FragmentClosedForm | utils/jsx2overreact-generator.ts:130-155 | a fragment writes `Fragment()(`, then `''` once for each whitespace-only text child, then `)` |
| GeneratorProps.AttributeSpec | utils/jsx2overreact-generator.ts:157-169 | a namespaced attribute name has no handler; otherwise the attribute writes `..name = value`, with `aria-` rewritten and `null` for a missing value |
| GeneratorProps.ObjectSpec | utils/jsx2overreact-generator.ts:281-333 | an empty object is `{}`; otherwise the properties are on indented lines joined by `,` and a line end |
| GeneratorProps.PropertyKeys | utils/jsx2overreact-generator.ts:261-280 | a method or accessor goes to the unmodelled `MethodDefinition`; a shorthand writes only its value; an identifier key is single-quoted; a computed key is bracketed |
| GeneratorProps.ArraySpec | utils/jsx2overreact-generator.ts:353-374 | an array is its elements joined by `, ` in brackets, with one more `, ` after a trailing hole |
| GeneratorProps.ArrayInnerHole | utils/jsx2overreact-generator.ts:358-371 | `[a, , b]` is written as `[a, , b]` |
| GeneratorProps.ArrayTrailingHole | utils/jsx2overreact-generator.ts:363-369 | `[a, ,]` is written as `[a, , ]` |
| GeneratorProps.DeclarationSpec | utils/jsx2overreact-generator.ts:63-81 | a declaration renders exactly when its declarators do, as `var `, their join by `, ` and `;` |
| GeneratorProps.SetterPattern | utils/jsx2overreact-generator.ts:375-381 | a two-element pattern whose second element is an identifier containing `set` is written as its first element when that is present; when the second element is a hole or not an identifier, or the first element is missing, reading its `name` or `type` is a TypeError and rendering fails; every other pattern is written as an array |
| GeneratorProps.ArrowWithoutArrowToken | utils/jsx2overreact-generator.ts:338-352 | for any parameters, body and level, an arrow function fails with its parameters' or else its body's failure, and otherwise is its parameter list in parentheses, a space and its body (parenthesised when it is an object), with no `=>` |
| HtmlJson.LineEnd | utils/html2json.ts:12-14 | the first LineTerminator at or after a position: how far `.*` can reach |
| HtmlJson.FindLine | utils/html2json.ts:12-14 | the leftmost position where a declaration line matches, or none |
| HtmlJson.ReplaceLine | utils/html2json.ts:12-14 | one `replace` pass never lengthens the text, and changes it exactly when some position matches |
| HtmlJsonProps.LineMatchIsRegex | utils/html2json.ts:12-14 | a match found by the model is exactly a match of the regular expression: the opener, a run of non-terminators, the closer and a line feed, with the greedy end |
| HtmlJsonProps.NoLineFeedKept | utils/html2json.ts:10-15 | text without a line feed is returned unchanged |
| HtmlJsonProps.NoDeclarationKept | utils/html2json.ts:10-15 | text without any of the three openers is returned unchanged (the match is case-sensitive) |
| HtmlJsonProps.LeadingDoctypeRemoved | utils/html2json.ts:14 | a leading `<!DOCTYPE …>` line is removed, together with its line feed |
| HtmlJsonProps.MidLineDoctypeCut | utils/html2json.ts:12-14 | the pattern is not anchored: a `<!DOCTYPE …>` that begins after other text on its line is cut from there to its line feed, and the text before it is kept |
| HtmlJson.Merge | utils/html2json.ts:49-62 | merging one attribute keeps the keys distinct, and adds the name only when it is new |
| HtmlJson.AttrsOf | utils/html2json.ts:34-68 | the reduced attributes have distinct keys, no more entries than attributes, and exactly the attribute names as keys |
| HtmlJsonProps.ValueRoundTrip | utils/html2json.ts:45-47 | a value split on spaces is written back as the same text |
| HtmlJsonProps.MergeFresh | utils/html2json.ts:59-62 | a new name is appended with its value |
| HtmlJsonProps.MergeOntoArray | utils/html2json.ts:52-54 | for any reduced attributes with distinct keys, a repeated name whose value is an array gets the new value pushed in place; every other entry is unchanged |
| HtmlJsonProps.MergeOntoString | utils/html2json.ts:55-58 | for any reduced attributes with distinct keys, a repeated name with a non-empty string value becomes the pair of old and new value in place; every other entry is unchanged |
| HtmlJsonProps.MergeOntoEmpty | utils/html2json.ts:51-61 | for any reduced attributes with distinct keys, a repeated name whose value is the empty string, which is falsy, is overwritten in place; every other entry is unchanged |
| HtmlJsonProps.EmptyValueReplaced | utils/html2json.ts:51-61 | `a="" a=v` keeps only `v` |
| HtmlJsonProps.DistinctAttrs | utils/html2json.ts:34-68 | with distinct names, the result is each attribute with its parsed value, in order |
| HtmlJsonProps.RepeatedName | utils/html2json.ts:51-58 | one name repeated with non-empty, space-free values gives one array of all its values, in order |
| HtmlJsonProps.SpacedRepeatNested | utils/html2json.ts:45-57 | a repeated name whose second value holds spaces nests an array, which `json2html` writes back joined by commas |
| HtmlJsonProps.AttrRoundTrip | utils/html2json.ts:164-172 | for distinct names, `json2html` writes back each attribute as ` name="value"` |
| HtmlJson.AddChild | utils/html2json.ts:74-77 | adding a child creates the missing `child` array, then appends to it; tag and attributes are unchanged |
| HtmlJson.Attach | utils/html2json.ts:88-96 | a node goes to the results when no element is open, and otherwise to the innermost open element |
| HtmlJson.Step | utils/html2json.ts:26-125 | one callback fails exactly on an `end` or a `comment` with no open element; it changes the stack depth by +1, -1 or 0 |
| HtmlJson.TreeBuilder.AppendToParent | utils/html2json.ts:104-112 | the field update equals `Attach` on the old state |
| HtmlJson.TreeBuilder.Start | utils/html2json.ts:26-81 | the `start` callback's new state is `Step` on the start event |
| HtmlJson.TreeBuilder.End | utils/html2json.ts:82-97 | `end` succeeds exactly when an element is open, and its new state is `Step` on the end event |
| HtmlJson.TreeBuilder.Chars | utils/html2json.ts:98-113 | the `chars` callback's new state is `Step` on the text event |
| HtmlJson.TreeBuilder.Comment | utils/html2json.ts:114-125 | `comment` succeeds exactly when an element is open, and its new state is `Step` on the comment event |
| HtmlJson.TreeBuilder.Handle | utils/html2json.ts:25-126 | dispatching a parser event succeeds exactly when `Step` does, with the same new state |
| HtmlJson.Html2Json | utils/html2json.ts:17-128 | the event loop returns `Html2JsonResult`: the root of the results, or failure |
| HtmlJson.AttrText | utils/html2json.ts:164-172 | the attribute text is empty exactly when there are no attributes, and otherwise starts with a space |
| HtmlJsonProps.ResultsOnlyGrow | utils/html2json.ts:88-105 | the results only grow: earlier results are a prefix of later ones |
| HtmlJsonProps.ChildrenJoin | utils/html2json.ts:157-162 | the children's HTML is the join of each child's HTML with `""` |
| HtmlJsonProps.EmptyTagIgnoresChildren | utils/html2json.ts:139-179 | an empty HTML 4.01 tag is written self-closed, whatever children it holds |
| HtmlJsonProps.ClosedElement | utils/html2json.ts:181-184 | any other element is its opening tag, its children and its closing tag |
| HtmlJsonProps.StepRendered | utils/html2json.ts:26-125 | a callback that fits the current state appends exactly its event's markup to what the builder would render |
| HtmlJsonProps.RunRendered | utils/html2json.ts:25-126 | a well-nested event sequence appends exactly its markup and leaves no element open |
| HtmlJsonProps.RoundTrip | utils/html2json.ts:17-198 | `json2html(html2json(events))` is the markup of the events, for every well-nested stream |

## Left out

- The parsers are outside the model. meriyah's `parseScript`, jsx-parser's `JSXParser` and `utils/html5parser.js` are not part of this model. Their output is the model's input: a program, a record or a sequence of parser callbacks.
- The top-level `jsx2OverReact` functions are not modelled as wrappers. In `index.ts` it maps the records to an array of strings. In the generator it calls astring's `generate` on a `Program`, whose handler is inherited.
- Handlers inherited from astring (`Program`, `ExpressionStatement`, `Identifier`, `MethodDefinition` and the other standard nodes) are not part of this model. They appear as the failure `Unmodelled(kind)`. The exception is `Identifier`, which writes its name.
- `formatComments` is left out: it is defined but never called, since its calls are commented out.
- `startsWithCapital` uses ASCII upper-casing only. A non-ASCII letter counts as capital.
- `eval` in `index.ts` is not modelled. An evaluated prop carries, as a parameter, the JSON text its expression evaluates to, or `None` when the evaluation throws (an unbound identifier) or `JSON.stringify` gives `undefined` (a function) so that `replaceAll` throws. The model says when the call throws, not which error it raises.
- StringRendererProps.ChildlessElement: the exact text is stated only for attribute lines in which the final rewrites find nothing (no `)` before two spaces, no comma before a line break). Where they do find something, the rewrites also reach inside those lines, which `ChildTextClean` covers.
- StringRendererProps.ElementOpening and StringRendererProps.ChildlessElement: a factory name holding `(`, `)` or `,` is not covered, since a JSX identifier cannot hold one.
- The text `JSON.stringify` gives for an unhandled expression is not modelled. The message after `EXPRESSION IDK: ` carries the node's kind instead.
- The digit text of number literals is not modelled. A number is given by its text.
- A namespaced tag name is left out because `convertName` and `formatName` recurse on the same node forever. It is modelled as a failure (`None` / `Diverges`).
- Object key order is not modelled. The model keeps keys in insertion order, but JavaScript puts integer-like keys first, and names such as `__proto__` or `constructor` collide with `Object.prototype`.
- `console.error` on a mismatched end tag, and the `debug` output, are left out. They only write diagnostics.
- Elements still open after the last parser event are never moved to `results`. The round-trip theorem therefore requires a well-nested stream.
- `utils/dedent.ts`, which the tests apply to both sides, is not part of this model. The fixture lemmas state the converter's raw output.
- `removeDOCTYPE` is modelled by itself and is not composed with the event stream, because the parser that turns its output into events is not part of this model.
- HtmlJsonProps.RoundTrip: stated only for streams whose unary tags are exactly the empty HTML 4.01 tags and whose attribute names are distinct. A repeated name or a spaced value is written back differently (see `HtmlJsonProps.SpacedRepeatNested`).
