/** The document of the Undo example: a named character buffer edited by
    positional insertion and erasure. Positions are unsigned (`DocPos` is the
    string's size type), so they are `nat` here. The underlying String throws
    `out_of_range` when a position lies past the end; that error is the
    `OutOfRange` outcome of an edit and the `None` answer of `At`. */
module UndoDocument {
  import opened Optional
  import opened WideChar

  datatype Document = Document(name: String, text: String)

  /** The outcome of an edit: the edited document, or the out-of-range
      failure of the underlying String operation (nothing is changed then). */
  datatype Edit = Ok(doc: Document) | OutOfRange

  function Min(a: nat, b: nat): nat {
    if a <= b then a else b
  }

  /** A fresh, empty document with the given name. */
  function New(name: String): (d: Document)
    ensures d.name == name
    ensures |d.text| == 0
  {
    Document(name, [])
  }

  /** The number of characters (code units) in the document. */
  function Size(d: Document): (n: nat)
    ensures n == |d.text|
  {
    |d.text|
  }

  /** The name given at construction; no edit changes it (see the `name`
      clauses of AddChar, AddString and Remove). */
  function Name(d: Document): (n: String)
    ensures n == d.name
  {
    d.name
  }

  /** The character at `pos`; absent (the string's `at` throws) unless `pos`
      is strictly inside the text. */
  function At(d: Document, pos: nat): (r: Option<Char>)
    ensures r.Some? <==> pos < Size(d)
    ensures r.Some? ==> r.value == d.text[pos]
  {
    if pos < |d.text| then Some(d.text[pos]) else None
  }

  /** Inserts one character before position `pos`. */
  function AddChar(d: Document, pos: nat, c: Char): (r: Edit)
    ensures r.Ok? <==> pos <= Size(d)
    ensures r.Ok? ==> r.doc.name == d.name
    ensures r.Ok? ==> Size(r.doc) == Size(d) + 1
    ensures r.Ok? ==> At(r.doc, pos) == Some(c)
    ensures r.Ok? ==> forall i :: 0 <= i < pos ==> r.doc.text[i] == d.text[i]
    ensures r.Ok? ==> forall i :: pos <= i < |d.text| ==> r.doc.text[i + 1] == d.text[i]
  {
    if pos <= |d.text| then Ok(d.(text := d.text[..pos] + [c] + d.text[pos..]))
    else OutOfRange
  }

  /** Inserts the String `s` before position `pos`. */
  function AddString(d: Document, pos: nat, s: String): (r: Edit)
    ensures r.Ok? <==> pos <= Size(d)
    ensures r.Ok? ==> r.doc.name == d.name
    ensures r.Ok? ==> Size(r.doc) == Size(d) + |s|
    ensures r.Ok? ==> r.doc.text[pos..pos + |s|] == s
    ensures r.Ok? ==> r.doc.text[..pos] == d.text[..pos]
    ensures r.Ok? ==> r.doc.text[pos + |s|..] == d.text[pos..]
  {
    if pos <= |d.text| then Ok(d.(text := d.text[..pos] + s + d.text[pos..]))
    else OutOfRange
  }

  /** Erases up to `n` characters starting at `pos`; fewer when the text ends
      first. */
  function Remove(d: Document, pos: nat, n: nat): (r: Edit)
    ensures r.Ok? <==> pos <= Size(d)
    ensures r.Ok? ==> r.doc.name == d.name
    ensures r.Ok? ==> Size(r.doc) == Size(d) - Min(n, Size(d) - pos)
    ensures r.Ok? ==> r.doc.text[..pos] == d.text[..pos]
    ensures r.Ok? ==> r.doc.text[pos..] == d.text[pos + Min(n, Size(d) - pos)..]
  {
    if pos <= |d.text| then
      var k := Min(n, |d.text| - pos);
      Ok(d.(text := d.text[..pos] + d.text[pos + k..]))
    else OutOfRange
  }

  /** Inserting a character and erasing it again restores the document. */
  lemma AddCharThenRemove(d: Document, pos: nat, c: Char)
    requires pos <= Size(d)
    ensures AddChar(d, pos, c).Ok?
    ensures Remove(AddChar(d, pos, c).doc, pos, 1) == Ok(d)
  {
    var d' := AddChar(d, pos, c).doc;
    var r := Remove(d', pos, 1).doc;
    assert r.text == d.text[..pos] + d.text[pos..];
    assert d.text[..pos] + d.text[pos..] == d.text;
  }

  /** Inserting a String and erasing that many characters restores the
      document. */
  lemma AddStringThenRemove(d: Document, pos: nat, s: String)
    requires pos <= Size(d)
    ensures AddString(d, pos, s).Ok?
    ensures Remove(AddString(d, pos, s).doc, pos, |s|) == Ok(d)
  {
    var d' := AddString(d, pos, s).doc;
    var r := Remove(d', pos, |s|).doc;
    assert r.text == d.text[..pos] + d.text[pos..];
    assert d.text[..pos] + d.text[pos..] == d.text;
  }

  /** Reference definition of a String insertion: its characters inserted one
      at a time, each just after the previous one. */
  function AddEach(d: Document, pos: nat, s: String): Edit
    decreases |s|
  {
    if |s| == 0 then (if pos <= |d.text| then Ok(d) else OutOfRange)
    else
      match AddChar(d, pos, s[0])
      case OutOfRange => OutOfRange
      case Ok(d') => AddEach(d', pos + 1, s[1..])
  }

  /** Inserting a String is the same as inserting its characters one by one. */
  lemma {:induction false} AddStringIsAddEach(d: Document, pos: nat, s: String)
    ensures AddString(d, pos, s) == AddEach(d, pos, s)
    decreases |s|
  {
    if |s| == 0 {
      if pos <= |d.text| {
        assert d.text[..pos] + s + d.text[pos..] == d.text;
      }
    } else if pos <= |d.text| {
      var d' := AddChar(d, pos, s[0]).doc;
      AddStringIsAddEach(d', pos + 1, s[1..]);
      assert d'.text[..pos + 1] == d.text[..pos] + [s[0]];
      assert d'.text[pos + 1..] == d.text[pos..];
      assert d.text[..pos] + [s[0]] + s[1..] == d.text[..pos] + s;
    }
  }

  /** Reference definition of an erasure: `n` single-character erasures at
      the same position. */
  function RemoveEach(d: Document, pos: nat, n: nat): Edit
    decreases n
  {
    if n == 0 then (if pos <= |d.text| then Ok(d) else OutOfRange)
    else
      match Remove(d, pos, 1)
      case OutOfRange => OutOfRange
      case Ok(d') => RemoveEach(d', pos, n - 1)
  }

  /** Erasing `n` characters is the same as erasing one character `n` times,
      including the clamping at the end of the text. */
  lemma {:induction false} RemoveIsRemoveEach(d: Document, pos: nat, n: nat)
    ensures Remove(d, pos, n) == RemoveEach(d, pos, n)
    decreases n
  {
    if n == 0 {
      if pos <= |d.text| {
        assert d.text[..pos] + d.text[pos..] == d.text;
      }
    } else if pos == |d.text| {
      // At the end every erasure is empty: each step leaves the document as it is.
      assert d.text[..pos] + d.text[pos..] == d.text;
      assert Remove(d, pos, 1) == Ok(d);
      RemoveIsRemoveEach(d, pos, n - 1);
    } else if pos < |d.text| {
      var t := d.text[..pos] + d.text[pos + 1..];
      assert Remove(d, pos, 1) == Ok(d.(text := t));
      RemoveIsRemoveEach(d.(text := t), pos, n - 1);
      var k := Min(n, |d.text| - pos);
      assert t[..pos] == d.text[..pos];
      assert t[pos + (k - 1)..] == d.text[pos + k..];
    }
  }
}
