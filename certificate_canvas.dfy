/** The certificate preview: a canvas cleared, then, once the template image
    has loaded, painted with the template and one line of text per field,
    each field's text and style resolved with fallbacks. The 2D context is an
    object whose style properties are set before each `fillText`; what it
    draws is kept as a log of drawing operations. */
module CertificateCanvas {
  import opened Json

  /** One drawing call, with the context's style at the time of the call;
      `fillText` is given the text value and renders it as text. */
  datatype Drawing =
    | Clear(width: int, height: int)
    | Template(url: Value, width: int, height: int)
    | Text(text: Value, font: Font, fill: Value, align: Value, baseline: string, x: Value, y: Value)

  /** The three parts the `font` string is written from. */
  datatype Font = Font(weight: Value, size: Value, family: Value)

  const DefaultText := "Sample Text"
  const DefaultFill := "#000000"
  const DefaultAlign := "center"
  const Baseline := "middle"
  const DefaultSize := Num(20)

  /** `data[field.key] || field.label || "Sample Text"`; the key is used as
      a property name, so it is converted to text first. */
  function FieldText(data: Doc, field: Doc): Value {
    Or(Or(Get(data, ToText(Get(field, "key"))), Get(field, "label")), Str(DefaultText))
  }

  /** A field's font: its weight, size and family, each with its default.
      The default size is the number 20. */
  function FieldFont(field: Doc): Font {
    Font(Or(Get(field, "fontWeight"), Str("normal")), Or(Get(field, "fontSize"), DefaultSize),
         Or(Get(field, "fontFamily"), Str("Arial")))
  }

  /** The `font` string: weight, size in pixels, family. */
  function FontString(f: Font): string {
    ToText(f.weight) + " " + ToText(f.size) + "px " + ToText(f.family)
  }

  /** What painting one field draws. */
  function FieldDrawing(data: Doc, field: Doc): Drawing {
    Text(FieldText(data, field), FieldFont(field),
         Or(Get(field, "color"), Str(DefaultFill)), Or(Get(field, "textAlign"), Str(DefaultAlign)),
         Baseline, Get(field, "x"), Get(field, "y"))
  }

  /** What painting a list of fields draws, field by field. */
  function FieldDrawings(data: Doc, fields: seq<Doc>): seq<Drawing> {
    Each(fields, field => FieldDrawing(data, field))
  }

  /** `f` applied to each element, in order. */
  function Each<A, B>(xs: seq<A>, f: A -> B): seq<B> {
    if xs == [] then [] else Each(xs[..|xs| - 1], f) + [f(xs[|xs| - 1])]
  }

  /** Everything one run of the effect draws: the clear, and, if the template
      loaded, the template stretched to the canvas followed by the fields. */
  function Frame(url: Value, loaded: bool, fields: seq<Doc>, data: Doc, width: int, height: int): seq<Drawing> {
    [Clear(width, height)] + if loaded then [Template(url, width, height)] + FieldDrawings(data, fields) else []
  }

  // ------------------------------------------------------------ properties

  /** The text is the data value under the field's key when that is truthy,
      otherwise the label when truthy, otherwise the placeholder; it is
      never empty. */
  lemma TextChoice(data: Doc, field: Doc)
    ensures var v := Get(data, ToText(Get(field, "key")));
      Truthy(v) ==> FieldText(data, field) == v
    ensures var v := Get(data, ToText(Get(field, "key")));
      !Truthy(v) && Truthy(Get(field, "label")) ==> FieldText(data, field) == Get(field, "label")
    ensures var v := Get(data, ToText(Get(field, "key")));
      !Truthy(v) && !Truthy(Get(field, "label")) ==> FieldText(data, field) == Str(DefaultText)
    ensures Truthy(FieldText(data, field))
    ensures ToText(FieldText(data, field)) != []
  {
  }

  /** A field with no style of its own is drawn in "normal 20px Arial",
      black, centred. */
  lemma UnstyledField(data: Doc, field: Doc)
    requires "fontWeight" !in field && "fontSize" !in field && "fontFamily" !in field
    requires "color" !in field && "textAlign" !in field
    ensures FontString(FieldDrawing(data, field).font) == "normal 20px Arial"
    ensures FieldDrawing(data, field).fill == Str("#000000")
    ensures FieldDrawing(data, field).align == Str("center")
    ensures FieldDrawing(data, field).baseline == "middle"
  {
  }

  /** Style values the field sets are used as they are: a string weight,
      size and family are joined by spaces with "px" after the size. */
  lemma StyledFont(field: Doc, weight: string, size: nat, family: string)
    requires weight != [] && family != [] && size > 0
    requires Get(field, "fontWeight") == Str(weight)
    requires Get(field, "fontSize") == Num(size)
    requires Get(field, "fontFamily") == Str(family)
    ensures FontString(FieldFont(field)) == weight + " " + NatText(size) + "px " + family
  {
    assert ToText(Num(size)) == NatText(size);
  }

  /** A field's text is drawn at the field's own position, with its own
      resolved text and font, vertically centred. */
  lemma FieldPlace(data: Doc, field: Doc)
    ensures var d := FieldDrawing(data, field);
      && d.Text?
      && d.x == Get(field, "x") && d.y == Get(field, "y")
      && d.text == FieldText(data, field)
      && d.font == FieldFont(field)
      && d.baseline == "middle"
  {
  }

  /** One result per element, in order. */
  lemma {:induction false} EachShape<A, B>(xs: seq<A>, f: A -> B)
    ensures |Each(xs, f)| == |xs|
    ensures forall i :: 0 <= i < |xs| ==> Each(xs, f)[i] == f(xs[i])
  {
    if xs != [] {
      EachShape(xs[..|xs| - 1], f);
    }
  }

  /** One drawing per field, in the order of the fields. */
  lemma FieldDrawingsShape(data: Doc, fields: seq<Doc>)
    ensures |FieldDrawings(data, fields)| == |fields|
    ensures forall i :: 0 <= i < |fields| ==> FieldDrawings(data, fields)[i] == FieldDrawing(data, fields[i])
  {
    EachShape(fields, field => FieldDrawing(data, field));
  }

  /** Until the template loads only the clear happens. */
  lemma FrameNotLoaded(url: Value, fields: seq<Doc>, data: Doc, width: int, height: int)
    ensures Frame(url, false, fields, data, width, height) == [Clear(width, height)]
  {
  }

  /** Once it loads, the template is drawn after the clear and before every
      field, and then exactly the fields, in order. */
  lemma FrameLoaded(url: Value, fields: seq<Doc>, data: Doc, width: int, height: int)
    ensures var f := Frame(url, true, fields, data, width, height);
      && |f| == |fields| + 2
      && f[0] == Clear(width, height)
      && f[1] == Template(url, width, height)
      && forall i :: 0 <= i < |fields| ==> f[i + 2] == FieldDrawing(data, fields[i])
  {
    FieldDrawingsShape(data, fields);
    var ds := FieldDrawings(data, fields);
    var f := Frame(url, true, fields, data, width, height);
    assert f == [Clear(width, height), Template(url, width, height)] + ds;
    forall i | 0 <= i < |fields|
      ensures f[i + 2] == FieldDrawing(data, fields[i])
    {
      assert f[i + 2] == ds[i];
    }
  }

  // ------------------------------------------------------------ the context

  /** A 2D drawing context: its style properties and what it has drawn. */
  class Context {
    /** The parts of the `font` string last set. */
    var font: Font
    var fillStyle: Value
    var textAlign: Value
    var textBaseline: string
    var drawn: seq<Drawing>

    constructor ()
      ensures drawn == []
    {
      font := Font(Str("normal"), Num(10), Str("sans-serif"));
      fillStyle := Str(DefaultFill);
      textAlign := Str("start");
      textBaseline := "alphabetic";
      drawn := [];
    }

    /** Sets the style for one field, then draws its text. */
    method PaintField(data: Doc, field: Doc)
      modifies this
      ensures drawn == old(drawn) + [FieldDrawing(data, field)]
      ensures font == FieldFont(field) && textBaseline == Baseline
    {
      var text := FieldText(data, field);
      font := Font(Or(Get(field, "fontWeight"), Str("normal")), Or(Get(field, "fontSize"), DefaultSize),
                   Or(Get(field, "fontFamily"), Str("Arial")));
      fillStyle := Or(Get(field, "color"), Str(DefaultFill));
      textAlign := Or(Get(field, "textAlign"), Str(DefaultAlign));
      textBaseline := Baseline;
      drawn := drawn + [Text(text, font, fillStyle, textAlign, textBaseline, Get(field, "x"), Get(field, "y"))];
    }

    /** The `forEach` over the fields. */
    method PaintFields(fields: seq<Doc>, data: Doc)
      modifies this
      ensures drawn == old(drawn) + FieldDrawings(data, fields)
    {
      var i := 0;
      while i < |fields|
        invariant 0 <= i <= |fields|
        invariant drawn == old(drawn) + FieldDrawings(data, fields[..i])
      {
        ghost var before := drawn;
        PaintField(data, fields[i]);
        assert fields[..i + 1][..i] == fields[..i];
        assert FieldDrawings(data, fields[..i + 1]) == FieldDrawings(data, fields[..i]) + [FieldDrawing(data, fields[i])];
        i := i + 1;
      }
      assert fields[..i] == fields;
    }

    /** The effect: clear, and once the template has loaded, draw it and
        then each field in turn. */
    method Paint(url: Value, loaded: bool, fields: seq<Doc>, data: Doc, width: int, height: int)
      modifies this
      ensures drawn == old(drawn) + Frame(url, loaded, fields, data, width, height)
    {
      drawn := drawn + [Clear(width, height)];
      if loaded {
        drawn := drawn + [Template(url, width, height)];
        PaintFields(fields, data);
        assert Frame(url, loaded, fields, data, width, height)
            == [Clear(width, height)] + [Template(url, width, height)] + FieldDrawings(data, fields);
      }
    }
  }
}
