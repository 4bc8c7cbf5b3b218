/**
 * The append-only styled text buffers a message is rendered into
 * (StyledWrapper): each append adds a token at the end and answers the length
 * before it, and a styled append of a non-empty token styles exactly the
 * characters it added. Styles are opaque identifiers.
 */
module StyledWrappers {
  import opened Wrappers

  /** An ExtendedTextStyle, by identity. */
  datatype Style = Style(id: nat)

  /** A StyleRange (or a StyledString style request): `length` characters from `start` carry `style`. */
  datatype StyleRange = StyleRange(start: nat, length: nat, style: Style)

  /**
   * The ranges are non-empty, follow one another without overlapping and lie
   * within [lo, hi).
   */
  ghost predicate Ordered(ranges: seq<StyleRange>, lo: nat, hi: nat)
  {
    && (forall i :: 0 <= i < |ranges| ==> ranges[i].length > 0)
    && (forall i :: 0 <= i < |ranges| ==> lo <= ranges[i].start && ranges[i].start + ranges[i].length <= hi)
    && (forall i, j :: 0 <= i < j < |ranges| ==> ranges[i].start + ranges[i].length <= ranges[j].start)
  }

  /** A non-empty range appended at or after the end of ordered ranges keeps them ordered. */
  lemma {:induction false} OrderedAppend(ranges: seq<StyleRange>, lo: nat, hi: nat, r: StyleRange, newHi: nat)
    requires Ordered(ranges, lo, hi)
    requires hi <= r.start && r.length > 0 && r.start + r.length <= newHi
    requires lo <= hi
    ensures Ordered(ranges + [r], lo, newHi)
  {
    var rs := ranges + [r];
    forall i, j | 0 <= i < j < |rs|
      ensures rs[i].start + rs[i].length <= rs[j].start
    {
      if j == |ranges| {
        assert rs[i] == ranges[i];
      }
    }
  }

  /** Ordered ranges within [lo, hi) stay ordered within any wider window. */
  lemma OrderedWiden(ranges: seq<StyleRange>, lo: nat, hi: nat, newHi: nat)
    requires Ordered(ranges, lo, hi) && hi <= newHi
    ensures Ordered(ranges, lo, newHi)
  {
  }

  /** StyledStringWrapper: appends to a StyledString and styles through it. */
  class StyledStringWrapper {
    /** The StyledString's text. */
    var text: string
    /** The setStyle requests made on the StyledString, in order. */
    var styles: seq<StyleRange>

    constructor (text: string)
      ensures this.text == text && styles == []
    {
      this.text := text;
      styles := [];
    }

    function GetLength(): nat
      reads this
    {
      |text|
    }

    /** append(token): the token goes at the end; the answer is the length before it. */
    method Append(token: string) returns (offset: nat)
      modifies this
      ensures offset == old(GetLength()) && GetLength() == offset + |token|
      ensures text == old(text) + token && text[offset..] == token
      ensures styles == old(styles)
    {
      offset := |text|;
      text := text + token;
    }

    /**
     * append(token, style): nothing for a missing or empty token; otherwise the
     * token is appended and, when a style is given, exactly its characters are
     * styled.
     */
    method AppendStyled(token: Option<string>, style: Option<Style>)
      modifies this
      ensures token.None? || token.value == [] ==> text == old(text) && styles == old(styles)
      ensures token.Some? && token.value != [] ==>
        && text == old(text) + token.value
        && styles == old(styles) + (if style.Some? then [StyleRange(|old(text)|, |token.value|, style.value)] else [])
    {
      if token.Some? && |token.value| > 0 {
        var offset := Append(token.value);
        if style.Some? {
          styles := styles + [StyleRange(offset, |token.value|, style.value)];
        }
      }
    }
  }

  /**
   * StylesCollector: collects the text and its style ranges that are to be
   * appended to a document at once, counting offsets from the document's
   * length when the collector was made.
   */
  class StylesCollector {
    const initialLength: nat
    var buffer: string
    var ranges: seq<StyleRange>

    /** The collected ranges are ordered and lie in the collected text, after the document's initial length. */
    ghost predicate Valid()
      reads this
    {
      Ordered(ranges, initialLength, GetLength())
    }

    /** `documentLength` is the document's length, None when the viewer has no document. */
    constructor (documentLength: Option<nat>)
      ensures initialLength == (if documentLength.Some? then documentLength.value else 0)
      ensures buffer == [] && ranges == [] && Valid()
    {
      initialLength := if documentLength.Some? then documentLength.value else 0;
      buffer := [];
      ranges := [];
    }

    function GetLength(): nat
      reads this
    {
      initialLength + |buffer|
    }

    /** append(token): the token goes into the buffer; the answer is the length before it. */
    method Append(token: string) returns (offset: nat)
      requires Valid()
      modifies this
      ensures Valid()
      ensures offset == old(GetLength()) && GetLength() == offset + |token|
      ensures buffer == old(buffer) + token && ranges == old(ranges)
    {
      offset := GetLength();
      OrderedWiden(ranges, initialLength, offset, offset + |token|);
      buffer := buffer + token;
    }

    /**
     * append(token, style): nothing for a missing or empty token, whatever the
     * style; otherwise the token is appended and one range styles exactly it.
     * A missing style with a non-empty token throws NullPointerException.
     */
    method AppendStyled(token: Option<string>, style: Option<Style>)
      requires Valid()
      requires token.Some? && token.value != [] ==> style.Some?
      modifies this
      ensures Valid()
      ensures token.None? || token.value == [] ==> buffer == old(buffer) && ranges == old(ranges)
      ensures token.Some? && token.value != [] ==>
        && buffer == old(buffer) + token.value
        && ranges == old(ranges) + [StyleRange(old(GetLength()), |token.value|, style.value)]
    {
      if token.Some? && |token.value| > 0 {
        var offset := Append(token.value);
        var range := StyleRange(offset, |token.value|, style.value);
        OrderedAppend(ranges, initialLength, offset, range, GetLength());
        ranges := ranges + [range];
      }
    }
  }

  /** TextViewerWrapper: appends straight to the viewer's document and styles through its widget. */
  class TextViewerWrapper {
    /** The viewer's document; None when it has none. */
    var document: Option<string>
    /** The setStyleRange requests made on the widget, in order. */
    var styleRanges: seq<StyleRange>

    constructor (document: Option<string>)
      ensures this.document == document && styleRanges == []
    {
      this.document := document;
      styleRanges := [];
    }

    /** getLength: the document's length, 0 without a document. */
    function GetLength(): nat
      reads this
    {
      if document.Some? then |document.value| else 0
    }

    /** append(token): the token is inserted at the document's end; the answer is the length before it. */
    method Append(token: string) returns (offset: nat)
      requires document.Some?
      modifies this
      ensures offset == old(GetLength()) && GetLength() == offset + |token|
      ensures document == Some(old(document.value) + token) && styleRanges == old(styleRanges)
    {
      offset := |document.value|;
      document := Some(document.value + token);
    }

    /**
     * append(token, style): nothing for a missing or empty token, with or
     * without a document or a style; otherwise the token is appended and exactly
     * it is styled. A non-empty token without a document or a style throws
     * NullPointerException.
     */
    method AppendStyled(token: Option<string>, style: Option<Style>)
      requires token.Some? && token.value != [] ==> document.Some? && style.Some?
      modifies this
      ensures token.None? || token.value == [] ==> document == old(document) && styleRanges == old(styleRanges)
      ensures token.Some? && token.value != [] ==>
        && document == Some(old(document.value) + token.value)
        && styleRanges == old(styleRanges) + [StyleRange(old(GetLength()), |token.value|, style.value)]
    {
      if token.Some? && |token.value| > 0 {
        var offset := Append(token.value);
        styleRanges := styleRanges + [StyleRange(offset, |token.value|, style.value)];
      }
    }
  }
}
