/**
 * The ESTree syntax tree (as the meriyah parser produces it with JSX enabled),
 * restricted to the node kinds the two ESTree renderers look at. The parser
 * itself is not part of this model: its output is what these datatypes hold.
 */
module Estree {
  import opened Text

  /** The decoded `value` of a `Literal`, with the `regex` and `bigint` forms. */
  datatype LiteralValue =
    | StringValue(s: string)
    | NumberValue(text: string)        // the number's canonical JavaScript text
    | BooleanValue(b: bool)
    | NullValue
    | RegExpValue(pattern: string, flags: string)
    | BigIntValue(digits: string)

  datatype PropertyKind = Init | Get | Set

  /** Tag names: `JSXIdentifier`, `JSXMemberExpression`, `JSXNamespacedName`. */
  datatype JSXName =
    | NameIdentifier(name: string)
    | NameMember(object: JSXName, property: string)
    | NameNamespaced(namespace: string, local: string)

  /** Attribute names: a `JSXIdentifier` or a `JSXNamespacedName`. */
  datatype AttrName =
    | AttrIdentifier(name: string)
    | AttrNamespaced(namespace: string, local: string)

  datatype Node =
    | ExpressionStatement(expression: Node)
    | VariableDeclaration(declKind: string, declarations: seq<Node>)
    | VariableDeclarator(id: Node, init: Option<Node>)
    | Identifier(name: string)
    | Literal(raw: Option<string>, literal: LiteralValue)
    | ObjectExpression(properties: seq<Node>)
    | Property(key: Node, value: Node, kind: PropertyKind, isMethod: bool, shorthand: bool, computed: bool)
    | SpreadElement(argument: Node)
    | ArrayExpression(elements: seq<Option<Node>>)     // None is a hole
    | ArrayPattern(patterns: seq<Option<Node>>)
    | ArrowFunctionExpression(params: seq<Node>, body: Node)
    | JSXElement(tagName: JSXName, attributes: seq<Node>, children: seq<Node>)
    | JSXFragment(fragmentChildren: seq<Node>)
    | JSXAttribute(attrName: AttrName, attrValue: Option<Node>)
    | JSXSpreadAttribute(spreadArgument: Node)
    | JSXExpressionContainer(contained: Node)
    | JSXEmptyExpression
    | JSXSpreadChild(spreadChild: Node)
    | JSXText(text: string)
    | Other(otherKind: string)    // any other ECMAScript node kind, named by its `type`

  /** A parsed script: its top-level statements in source order. */
  datatype Program = Program(body: seq<Node>)

  /** The node's `type` string. */
  function Kind(n: Node): string {
    match n
    case ExpressionStatement(_) => "ExpressionStatement"
    case VariableDeclaration(_, _) => "VariableDeclaration"
    case VariableDeclarator(_, _) => "VariableDeclarator"
    case Identifier(_) => "Identifier"
    case Literal(_, _) => "Literal"
    case ObjectExpression(_) => "ObjectExpression"
    case Property(_, _, _, _, _, _) => "Property"
    case SpreadElement(_) => "SpreadElement"
    case ArrayExpression(_) => "ArrayExpression"
    case ArrayPattern(_) => "ArrayPattern"
    case ArrowFunctionExpression(_, _) => "ArrowFunctionExpression"
    case JSXElement(_, _, _) => "JSXElement"
    case JSXFragment(_) => "JSXFragment"
    case JSXAttribute(_, _) => "JSXAttribute"
    case JSXSpreadAttribute(_) => "JSXSpreadAttribute"
    case JSXExpressionContainer(_) => "JSXExpressionContainer"
    case JSXEmptyExpression => "JSXEmptyExpression"
    case JSXSpreadChild(_) => "JSXSpreadChild"
    case JSXText(_) => "JSXText"
    case Other(kind) => kind
  }
}
