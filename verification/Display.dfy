/** Neutralising upstream-authored text for display, and the schema sanitiser over JSON values. */
module Display {
  import opened Wrappers
  import opened Text

  /* ---------- text ---------- */

  predicate Neutralized(c: char) {
    var u := c as int;
    || u <= 0x1F || u == 0x7F || 0x80 <= u <= 0x9F
    || 0x200B <= u <= 0x200D || 0x2028 <= u <= 0x2029
    || 0x202A <= u <= 0x202E || 0x2066 <= u <= 0x2069 || u == 0xFEFF
  }

  /** Control characters, zero-width characters, line and paragraph separators, direction marks and the byte order mark. */
  lemma NeutralizedExactly(c: char)
    ensures Neutralized(c) <==>
            || c < ' ' || '\U{7F}' <= c < '\U{A0}'
            || c in "\U{200B}\U{200C}\U{200D}"
            || c in "\U{2028}\U{2029}"
            || c in "\U{202A}\U{202B}\U{202C}\U{202D}\U{202E}\U{2066}\U{2067}\U{2068}\U{2069}"
            || c == '\U{FEFF}'
  {
  }

  function Blanked(c: char): char {
    if Neutralized(c) then ' ' else c
  }

  function BlankAll(s: string): string {
    seq(|s|, i requires 0 <= i < |s| => Blanked(s[i]))
  }

  function Neutralize(s: string): string {
    Trim(BlankAll(s))
  }

  function Take(s: string, n: nat): string {
    if |s| <= n then s else s[..n]
  }

  const ROW_CAP: nat := 100
  const IDENTIFIER_CAP: nat := 200

  function SanitizeRow(s: string): string {
    Take(Neutralize(s), ROW_CAP)
  }

  function SanitizeIdentifier(s: string): string {
    Take(Neutralize(s), IDENTIFIER_CAP)
  }

  predicate Clean(s: string) {
    forall i :: 0 <= i < |s| ==> !Neutralized(s[i])
  }

  lemma NeutralizeIsClean(s: string)
    ensures Clean(Neutralize(s)) && Trimmed(Neutralize(s))
    ensures |Neutralize(s)| <= |s|
  {
    var lo, hi := TrimCuts(BlankAll(s));
    assert Clean(BlankAll(s));
  }

  /** Clean, trimmed text passes through unchanged; so neutralising twice is neutralising once. */
  lemma NeutralizeFixed(s: string)
    ensures Neutralize(s) == s <==> Clean(s) && Trimmed(s)
    ensures Neutralize(Neutralize(s)) == Neutralize(s)
  {
    NeutralizeIsClean(s);
    var n := Neutralize(s);
    CleanUnchanged(n);
    TrimFixed(n);
    if Clean(s) && Trimmed(s) {
      CleanUnchanged(s);
      TrimFixed(s);
    }
  }

  lemma CleanUnchanged(s: string)
    requires Clean(s)
    ensures BlankAll(s) == s
  {
  }

  /**
   The row sanitiser caps after trimming, so a second pass changes its output exactly
   when the cap leaves white space at the end.
   */
  lemma RowIdempotence(s: string)
    ensures Clean(SanitizeRow(s)) && |SanitizeRow(s)| <= ROW_CAP
    ensures SanitizeRow(SanitizeRow(s)) == SanitizeRow(s) <==>
            !(|Neutralize(s)| > ROW_CAP && White(Neutralize(s)[ROW_CAP - 1]))
  {
    NeutralizeIsClean(s);
    var r := SanitizeRow(s);
    NeutralizeFixed(r);
    NeutralizeIsClean(r);
    var lo, hi := TrimCuts(BlankAll(r));
    CleanUnchanged(r);
    assert Take(Neutralize(r), ROW_CAP) == Neutralize(r);
  }

  lemma RowNotIdempotent()
    ensures exists s :: SanitizeRow(SanitizeRow(s)) != SanitizeRow(s)
  {
    var s := seq(101, i => if i == 99 then ' ' else 'a');
    CleanUnchanged(s);
    TrimFixed(s);
    assert Neutralize(s) == s;
    RowIdempotence(s);
  }

  /* ---------- JSON ---------- */

  datatype Json =
    | Null
    | Bool(b: bool)
    | Num(n: real)
    | Str(s: string)
    | Arr(items: seq<Json>)
    | Obj(fields: map<string, Json>)

  predicate MetadataKey(k: string) {
    k == "title" || k == "description" || k == "$comment" || k == "markdownDescription"
  }

  function Sanitize(v: Json): Json
    decreases v, 0
  {
    match v
    case Obj(fields) =>
      Obj(map k | k in fields :: if MetadataKey(k) then SanitizeMetadata(fields[k]) else Sanitize(fields[k]))
    case Arr(items) =>
      Arr(seq(|items|, i requires 0 <= i < |items| => Sanitize(items[i])))
    case _ => v
  }

  function SanitizeMetadata(v: Json): Json
    decreases v, 1
  {
    match v
    case Str(s) => Str(Neutralize(s))
    case _ => Sanitize(v)
  }

  datatype Step = Key(k: string) | Index(i: nat)

  /** The value at a path, if the path exists. */
  function At(v: Json, path: seq<Step>): Option<Json>
    decreases |path|
  {
    if path == [] then Some(v)
    else match (path[0], v)
      case (Key(k), Obj(fields)) => if k in fields then At(fields[k], path[1..]) else None
      case (Index(i), Arr(items)) => if i < |items| then At(items[i], path[1..]) else None
      case _ => None
  }

  predicate IsAnnotation(path: seq<Step>) {
    path != [] && match path[|path| - 1]
                  case Key(k) => k in ["title", "description", "$comment", "markdownDescription"]
                  case Index(_) => false
  }

  /** `w` is `v` with at most its own text neutralised; containers keep their keys and length. */
  predicate SameShape(v: Json, w: Json, annotation: bool) {
    match v
    case Str(s) => w == Str(if annotation then Neutralize(s) else s)
    case Arr(items) => w.Arr? && |w.items| == |items|
    case Obj(fields) => w.Obj? && w.fields.Keys == fields.Keys
    case _ => w == v
  }

  ghost predicate SameAt(v: Json, w: Json, path: seq<Step>, annotation: bool) {
    match At(v, path)
    case None => At(w, path).None?
    case Some(x) => At(w, path).Some? && SameShape(x, At(w, path).value, annotation)
  }

  lemma {:induction false} SanitizeAt(v: Json, path: seq<Step>, annotation: bool)
    ensures SameAt(v, if annotation then SanitizeMetadata(v) else Sanitize(v), path,
                   if path == [] then annotation else IsAnnotation(path))
    decreases |path|
  {
    var w := if annotation then SanitizeMetadata(v) else Sanitize(v);
    if path != [] {
      match (path[0], v)
      case (Key(k), Obj(fields)) =>
        if k in fields {
          SanitizeAt(fields[k], path[1..], MetadataKey(k));
          SameThroughKey(fields, k, path);
        }
      case (Index(i), Arr(items)) =>
        if i < |items| {
          SanitizeAt(items[i], path[1..], false);
          SameThroughIndex(items, i, path);
        }
      case _ =>
    }
  }

  lemma SameThroughKey(fields: map<string, Json>, k: string, path: seq<Step>)
    requires path != [] && path[0] == Key(k) && k in fields
    requires SameAt(fields[k], if MetadataKey(k) then SanitizeMetadata(fields[k]) else Sanitize(fields[k]), path[1..],
                    if path[1..] == [] then MetadataKey(k) else IsAnnotation(path[1..]))
    ensures SameAt(Obj(fields), Sanitize(Obj(fields)), path, IsAnnotation(path))
  {
  }

  lemma SameThroughIndex(items: seq<Json>, i: nat, path: seq<Step>)
    requires path != [] && path[0] == Index(i) && i < |items|
    requires SameAt(items[i], Sanitize(items[i]), path[1..], path[1..] != [] && IsAnnotation(path[1..]))
    ensures SameAt(Arr(items), Sanitize(Arr(items)), path, IsAnnotation(path))
  {
  }

  /**
   Every path survives with its shape, and a leaf changes only when it is a string held
   directly by an object under one of the four annotation names, wherever that object sits.
   */
  lemma SanitizeIsExact(v: Json)
    ensures forall path :: SameAt(v, Sanitize(v), path, IsAnnotation(path))
  {
    forall path
      ensures SameAt(v, Sanitize(v), path, IsAnnotation(path))
    {
      SanitizeAt(v, path, false);
    }
  }

  lemma {:induction false} SanitizeIdempotent(v: Json)
    ensures Sanitize(Sanitize(v)) == Sanitize(v)
    ensures SanitizeMetadata(SanitizeMetadata(v)) == SanitizeMetadata(v)
    decreases v
  {
    match v
    case Str(s) => NeutralizeFixed(s);
    case Arr(items) =>
      var once := Sanitize(v);
      forall i | 0 <= i < |items|
        ensures Sanitize(once.items[i]) == once.items[i]
      {
        SanitizeIdempotent(items[i]);
      }
      assert Sanitize(once).items == once.items;
    case Obj(fields) =>
      var once := Sanitize(v);
      forall k | k in fields
        ensures Sanitize(once).fields[k] == once.fields[k]
      {
        SanitizeIdempotent(fields[k]);
      }
      assert Sanitize(once).fields == once.fields;
    case _ =>
  }

  /** No annotation string of a sanitised schema holds a neutralised character. */
  lemma AnnotationsAreClean(v: Json, path: seq<Step>)
    requires IsAnnotation(path) && At(Sanitize(v), path).Some? && At(Sanitize(v), path).value.Str?
    ensures Clean(At(Sanitize(v), path).value.s)
  {
    SanitizeAt(v, path, false);
    var x := At(v, path).value;
    NeutralizeIsClean(x.s);
  }

  /* ---------- what the sanitiser leaves alone ---------- */

  predicate Plain(s: string) {
    Clean(s) && Trimmed(s)
  }

  /** Every string held directly by an object under an annotation name, at any depth, is clean and trimmed. */
  ghost predicate PlainAnnotations(v: Json) {
    match v
    case Obj(fields) =>
      forall k :: k in fields ==> PlainAnnotations(fields[k]) && (MetadataKey(k) && fields[k].Str? ==> Plain(fields[k].s))
    case Arr(items) => forall i :: 0 <= i < |items| ==> PlainAnnotations(items[i])
    case _ => true
  }

  lemma MetadataUntouched(v: Json)
    requires Sanitize(v) == v <==> PlainAnnotations(v)
    ensures SanitizeMetadata(v) == v <==> PlainAnnotations(v) && (v.Str? ==> Plain(v.s))
  {
    if v.Str? { NeutralizeFixed(v.s); }
  }

  /** A value is untouched exactly when its annotation strings are plain; `default` and `examples` are no exception. */
  lemma {:induction false} UntouchedExactly(v: Json)
    ensures Sanitize(v) == v <==> PlainAnnotations(v)
    decreases v
  {
    match v
    case Arr(items) =>
      forall i | 0 <= i < |items|
        ensures Sanitize(items[i]) == items[i] <==> PlainAnnotations(items[i])
      {
        UntouchedExactly(items[i]);
      }
      ItemsUntouched(items);
    case Obj(fields) =>
      forall k | k in fields
        ensures Sanitize(fields[k]) == fields[k] <==> PlainAnnotations(fields[k])
        ensures SanitizeMetadata(fields[k]) == fields[k] <==>
                PlainAnnotations(fields[k]) && (fields[k].Str? ==> Plain(fields[k].s))
      {
        UntouchedExactly(fields[k]);
        MetadataUntouched(fields[k]);
      }
      FieldsUntouched(fields);
    case _ =>
  }

  lemma ItemsUntouched(items: seq<Json>)
    ensures Sanitize(Arr(items)) == Arr(items) <==> forall i :: 0 <= i < |items| ==> Sanitize(items[i]) == items[i]
  {
    var after := Sanitize(Arr(items)).items;
    assert |after| == |items| && forall i :: 0 <= i < |items| ==> after[i] == Sanitize(items[i]);
    if forall i :: 0 <= i < |items| ==> Sanitize(items[i]) == items[i] {
      assert after == items;
    }
  }

  lemma FieldsUntouched(fields: map<string, Json>)
    ensures Sanitize(Obj(fields)) == Obj(fields) <==>
            forall k :: k in fields ==> fields[k] == if MetadataKey(k) then SanitizeMetadata(fields[k]) else Sanitize(fields[k])
  {
    var after := Sanitize(Obj(fields)).fields;
    assert after.Keys == fields.Keys;
    if forall k :: k in fields ==> fields[k] == if MetadataKey(k) then SanitizeMetadata(fields[k]) else Sanitize(fields[k]) {
      assert after == fields;
    }
  }

  /** A default value that comes back changed: its `title` is data, and loses its trailing space. */
  lemma DefaultIsTouched()
    ensures var given := Obj(map["default" := Obj(map["title" := Str("a ")])]);
            Sanitize(given) == Obj(map["default" := Obj(map["title" := Str("a")])])
  {
    var value := Obj(map["title" := Str("a ")]);
    assert BlankAll("a ") == "a ";
    assert Trim("a ") == "a" by { assert "a "[..1] == "a"; }
    assert Sanitize(value).fields == map["title" := Str("a")];
    assert Sanitize(Obj(map["default" := value])).fields == map["default" := Obj(map["title" := Str("a")])];
  }

  /* ---------- what neutralising leaves ---------- */

  /**
   Neutralising keeps one stretch of the text, blanking its neutralised characters: everything outside
   the stretch is white space or neutralised, and the characters at its ends are neither.
   */
  lemma NeutralizedText(s: string) returns (lo: nat, hi: nat)
    ensures lo <= hi <= |s| && |Neutralize(s)| == hi - lo
    ensures forall i :: 0 <= i < hi - lo ==> Neutralize(s)[i] == if Neutralized(s[lo + i]) then ' ' else s[lo + i]
    ensures forall i :: 0 <= i < lo || hi <= i < |s| ==> White(s[i]) || Neutralized(s[i])
    ensures lo < hi ==> !White(s[lo]) && !Neutralized(s[lo]) && !White(s[hi - 1]) && !Neutralized(s[hi - 1])
  {
    var b := BlankAll(s);
    lo, hi := TrimCuts(b);
    forall i | 0 <= i < lo || hi <= i < |s|
      ensures White(s[i]) || Neutralized(s[i])
    {
      if i < lo { assert b[..lo][i] == b[i]; } else { assert b[hi..][i - hi] == b[i]; }
      assert b[i] == Blanked(s[i]);
    }
    if lo < hi {
      assert Neutralize(s)[0] == b[lo] && Neutralize(s)[hi - lo - 1] == b[hi - 1];
    }
  }

  /** Rows keep the first 100 characters of the neutralised text, identifiers the first 200. */
  lemma CapsAreExact(s: string)
    ensures SanitizeRow(s) <= Neutralize(s) && |SanitizeRow(s)| == if |Neutralize(s)| < 100 then |Neutralize(s)| else 100
    ensures SanitizeIdentifier(s) <= Neutralize(s)
    ensures |SanitizeIdentifier(s)| == if |Neutralize(s)| < 200 then |Neutralize(s)| else 200
  {
  }
}
