/** Values shared by the components: optional values, the three-way
    `undefined | null | value` shape of optional nullable props, JavaScript
    truthiness of text nodes, case folding and substring search. */
module Common {

  datatype Option<+T> = None | Some(value: T)

  /** An optional prop that may also be `null`: `value?: T | null`. */
  datatype Prop<+T> = Undefined | Null | Given(value: T)

  /** A callback prop, identified only so that the model can record which one ran. */
  datatype Handler = Handler(id: nat)

  /** A text node (`ReactNode`) that may be absent. */
  type Node = Option<string>

  /** JavaScript truthiness of a text node: `undefined` and `''` are falsy. */
  predicate Truthy(n: Node) {
    n.Some? && n.value != ""
  }

  /** The node a `cond && <X/>` expression keeps: present only when truthy. */
  function WhenTruthy(n: Node): (r: Node)
    ensures r.Some? <==> Truthy(n)
    ensures r.Some? ==> r == n
  {
    if Truthy(n) then n else None
  }

  // ---------------------------------------------------------------------
  // Case folding (`String.prototype.toLowerCase` on ASCII and Latin-1 letters)

  /** A capital letter of ASCII or of the Latin-1 supplement (`À` to `Þ`,
      except the sign `×`): the letters of Portuguese labels. */
  predicate IsCapital(c: char) {
    ('A' <= c <= 'Z') || ('\U{C0}' <= c <= '\U{DE}' && c != '\U{D7}')
  }

  /** A capital maps to its small letter, 32 code points further
      (`Á` to `á`, `Ç` to `ç`); every other character is left alone. */
  function LowerChar(c: char): (d: char)
    ensures IsCapital(c) ==> d as int == c as int + 32
    ensures !IsCapital(c) ==> d == c
    ensures !IsCapital(d)
  {
    if IsCapital(c) then (c as int + 32) as char else c
  }

  function Lower(s: string): (r: string)
    ensures |r| == |s|
    ensures forall i :: 0 <= i < |s| ==> r[i] == LowerChar(s[i])
  {
    if s == [] then [] else [LowerChar(s[0])] + Lower(s[1..])
  }

  /** Lower-casing twice is lower-casing once. */
  lemma LowerIdempotent(s: string)
    ensures Lower(Lower(s)) == Lower(s)
  {
    var once := Lower(s);
    var twice := Lower(once);
    assert forall i :: 0 <= i < |s| ==> twice[i] == once[i];
  }

  // ---------------------------------------------------------------------
  // Substring search (`String.prototype.includes`)

  /** `needle` occurs in `hay` at position `i`. */
  ghost predicate OccursAt(hay: string, needle: string, i: int) {
    0 <= i && i + |needle| <= |hay| && hay[i..i + |needle|] == needle
  }

  /** `hay.includes(needle)`, scanning from the left. */
  function Includes(hay: string, needle: string): bool
    decreases |hay|
  {
    if needle <= hay then true
    else if hay == [] then false
    else Includes(hay[1..], needle)
  }

  /** A successful scan has found an occurrence. */
  lemma {:induction false} IncludesOccurs(hay: string, needle: string)
    requires Includes(hay, needle)
    ensures exists i :: OccursAt(hay, needle, i)
    decreases |hay|
  {
    if needle <= hay {
      assert OccursAt(hay, needle, 0);
    } else {
      IncludesOccurs(hay[1..], needle);
      var i :| OccursAt(hay[1..], needle, i);
      assert hay[i + 1..i + 1 + |needle|] == hay[1..][i..i + |needle|];
      assert OccursAt(hay, needle, i + 1);
    }
  }

  /** An occurrence at position `i` is found by the scan. */
  lemma {:induction false} OccursIncludes(hay: string, needle: string, i: int)
    requires OccursAt(hay, needle, i)
    ensures Includes(hay, needle)
    decreases i
  {
    if i == 0 {
      assert hay[..|needle|] == needle;
    } else {
      assert hay[1..][i - 1..i - 1 + |needle|] == hay[i..i + |needle|];
      OccursIncludes(hay[1..], needle, i - 1);
    }
  }

  /** The scan finds the needle exactly when it occurs at some position. */
  lemma IncludesSpec(hay: string, needle: string)
    ensures Includes(hay, needle) <==> exists i :: OccursAt(hay, needle, i)
  {
    if Includes(hay, needle) {
      IncludesOccurs(hay, needle);
    }
    if exists i :: OccursAt(hay, needle, i) {
      var i :| OccursAt(hay, needle, i);
      OccursIncludes(hay, needle, i);
    }
  }

  /** A search for "água" finds the label "Água" once both are lower-cased. */
  lemma AccentedSearch()
    ensures Includes(Lower("\U{C1}gua"), Lower("\U{E1}gua"))
  {
    assert Lower("\U{C1}gua") == "\U{E1}gua";
    assert OccursAt("\U{E1}gua", "\U{E1}gua", 0);
    OccursIncludes("\U{E1}gua", "\U{E1}gua", 0);
  }

  /** Every text includes the empty search text. */
  lemma IncludesEmpty(hay: string)
    ensures Includes(hay, "")
  {
  }
}
