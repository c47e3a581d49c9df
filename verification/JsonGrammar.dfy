/** The grammar of a JSON text, sections 2 to 7 of RFC 8259, as concrete syntax trees and the text
    they stand for. */
module JsonGrammar {
  import opened Wrappers
  import opened JsonScanner

  type Text = seq<char>

  datatype Value =
    | True | False | Null
    | Number(neg: bool, whole: Text, frac: Option<Text>, exp: Option<Exp>)
    | Str(chars: seq<Unit>)
    | EmptyArray(ws: Text)
    | Array(elems: Elems)
    | EmptyObject(ws: Text)
    | Object(members: Members)

  datatype Exp = Exp(e: char, sign: Option<char>, digits: Text)

  /** One character of a string: as it is, behind a backslash, or four hexadecimal digits. */
  datatype Unit = Plain(c: char) | Escape(c: char) | Unicode(h1: char, h2: char, h3: char, h4: char)

  datatype Elem = Elem(before: Text, v: Value, after: Text)

  datatype Elems = LastElem(e: Elem) | MoreElems(e: Elem, rest: Elems)

  datatype Member = Member(before: Text, key: seq<Unit>, mid: Text, value: Elem)

  datatype Members = LastMember(m: Member) | MoreMembers(m: Member, rest: Members)

  // ----- what is well formed -----

  predicate AllSpace(t: Text) { forall c <- t :: IsSpace(c) }

  predicate AllDigits(t: Text) { forall c <- t :: IsDigit(c) }

  /** int = zero / ( digit1-9 *DIGIT ) */
  predicate IntOk(t: Text) { t == "0" || (t != [] && AllDigits(t) && t[0] != '0') }

  predicate ExpOk(e: Exp) {
    e.e in {'e', 'E'} && (e.sign.Some? ==> e.sign.value in {'+', '-'}) && e.digits != [] && AllDigits(e.digits)
  }

  predicate UnitOk(u: Unit) {
    match u
    case Plain(c) => c >= ' ' && c != '"' && c != '\\'
    case Escape(c) => IsEscaped(c)
    case Unicode(a, b, c, d) => IsHex(a) && IsHex(b) && IsHex(c) && IsHex(d)
  }

  predicate StrOk(us: seq<Unit>) { forall u <- us :: UnitOk(u) }

  predicate Ok(v: Value) {
    match v
    case Number(_, i, frac, exp) =>
      && IntOk(i) && (frac.Some? ==> frac.value != [] && AllDigits(frac.value)) && (exp.Some? ==> ExpOk(exp.value))
    case Str(us) => StrOk(us)
    case EmptyArray(ws) => AllSpace(ws)
    case Array(es) => ElemsOk(es)
    case EmptyObject(ws) => AllSpace(ws)
    case Object(ms) => MembersOk(ms)
    case _ => true
  }

  predicate ElemOk(e: Elem) { AllSpace(e.before) && Ok(e.v) && AllSpace(e.after) }

  predicate ElemsOk(es: Elems) {
    match es
    case LastElem(e) => ElemOk(e)
    case MoreElems(e, rest) => ElemOk(e) && ElemsOk(rest)
  }

  predicate MemberOk(m: Member) { AllSpace(m.before) && StrOk(m.key) && AllSpace(m.mid) && ElemOk(m.value) }

  predicate MembersOk(ms: Members) {
    match ms
    case LastMember(m) => MemberOk(m)
    case MoreMembers(m, rest) => MemberOk(m) && MembersOk(rest)
  }

  // ----- the text -----

  function FracText(f: Option<Text>): Text { if f.None? then "" else "." + f.value }

  function ExpText(e: Option<Exp>): Text {
    if e.None? then "" else [e.value.e] + (if e.value.sign.None? then "" else [e.value.sign.value]) + e.value.digits
  }

  function UnitText(u: Unit): Text {
    match u
    case Plain(c) => [c]
    case Escape(c) => ['\\', c]
    case Unicode(a, b, c, d) => ['\\', 'u', a, b, c, d]
  }

  /** A string behind its opening quotation mark. */
  function StrText(us: seq<Unit>): Text { if us == [] then "\"" else UnitText(us[0]) + StrText(us[1..]) }

  function ValueText(v: Value): Text {
    match v
    case True => "true"
    case False => "false"
    case Null => "null"
    case Number(neg, i, frac, exp) => (if neg then "-" else "") + (i + (FracText(frac) + ExpText(exp)))
    case Str(us) => "\"" + StrText(us)
    case EmptyArray(ws) => "[" + (ws + "]")
    case Array(es) => "[" + ElemsText(es)
    case EmptyObject(ws) => "{" + (ws + "}")
    case Object(ms) => "{" + MembersText(ms)
  }

  function ElemText(e: Elem): Text { e.before + (ValueText(e.v) + e.after) }

  /** The elements with the closing bracket. */
  function ElemsText(es: Elems): Text {
    match es
    case LastElem(e) => ElemText(e) + "]"
    case MoreElems(e, rest) => ElemText(e) + ("," + ElemsText(rest))
  }

  function MemberText(m: Member): Text { m.before + ("\"" + (StrText(m.key) + (m.mid + (":" + ElemText(m.value))))) }

  function MembersText(ms: Members): Text {
    match ms
    case LastMember(m) => MemberText(m) + "}"
    case MoreMembers(m, rest) => MemberText(m) + ("," + MembersText(rest))
  }

  // ----- nesting -----

  function Max(a: nat, b: nat): nat { if a < b then b else a }

  function Depth(v: Value): nat {
    match v
    case EmptyArray(_) => 1
    case Array(es) => 1 + ElemsDepth(es)
    case EmptyObject(_) => 1
    case Object(ms) => 1 + MembersDepth(ms)
    case _ => 0
  }

  function ElemsDepth(es: Elems): nat {
    match es
    case LastElem(e) => Depth(e.v)
    case MoreElems(e, rest) => Max(Depth(e.v), ElemsDepth(rest))
  }

  function MembersDepth(ms: Members): nat {
    match ms
    case LastMember(m) => Depth(m.value.v)
    case MoreMembers(m, rest) => Max(Depth(m.value.v), MembersDepth(rest))
  }

  /** JSON-text = ws value ws, nested no deeper than the scanner allows. */
  ghost predicate JsonText(t: Text) {
    exists e: Elem :: ElemOk(e) && Depth(e.v) <= MaxNestingDepth && t == ElemText(e)
  }
}
