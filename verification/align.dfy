/**
  The alignment calculator: how the blanks that fill a cell up to its
  column width are split between the two sides of the cell's text.
 */
module Align {
  import opened Text

  /** The three alignment modes a caller passes per call. */
  datatype Alignment = AlignLeft | AlignCenter | AlignRight

  /**
    Number of blanks put before a text of length `len` in a field of
    `width` characters. Centring gives the left side the rounded-down
    half, so an odd blank goes to the right.
   */
  function LeftPadding(len: nat, width: nat, a: Alignment): (l: nat)
    requires len <= width
    ensures l <= width - len
    ensures a == AlignLeft ==> l == 0
    ensures a == AlignRight ==> l == width - len
    ensures a == AlignCenter ==> l <= width - len - l <= l + 1
  {
    match a
    case AlignLeft => 0
    case AlignCenter => (width - len) / 2
    case AlignRight => width - len
  }

  /** Number of blanks put after the text: whatever the left side did not take. */
  function RightPadding(len: nat, width: nat, a: Alignment): (rp: nat)
    requires len <= width
    ensures LeftPadding(len, width, a) + len + rp == width
    ensures a == AlignLeft ==> rp == width - len
    ensures a == AlignRight ==> rp == 0
    ensures a == AlignCenter ==> LeftPadding(len, width, a) <= rp <= LeftPadding(len, width, a) + 1
  {
    width - len - LeftPadding(len, width, a)
  }

  /** The text padded with blanks to exactly `width` characters. */
  function Pad(text: string, width: nat, a: Alignment): (r: string)
    requires |text| <= width
  {
    Spaces(LeftPadding(|text|, width, a)) + text + Spaces(RightPadding(|text|, width, a))
  }

  /**
    A padded cell is exactly as wide as its column, holds the text at the
    left-padding offset, and is blank everywhere else.
   */
  lemma PadLayout(text: string, width: nat, a: Alignment)
    requires |text| <= width
    ensures var r, l := Pad(text, width, a), LeftPadding(|text|, width, a);
      && |r| == width
      && r[l .. l + |text|] == text
      && (forall k :: 0 <= k < l ==> r[k] == ' ')
      && (forall k :: l + |text| <= k < width ==> r[k] == ' ')
  {

  }

  /**
    Stripping the blanks of a padded cell recovers its text, whatever the
    alignment, provided the text has no blanks of its own at either end.
   */
  lemma PadStripRoundTrip(text: string, width: nat, a: Alignment)
    requires |text| <= width
    requires Unpadded(text)
    ensures Strip(Pad(text, width, a)) == text
  {
    StripSurrounded(LeftPadding(|text|, width, a), text, RightPadding(|text|, width, a));
  }

  /** Left alignment writes the text first; right alignment writes it last. */
  lemma PadFlush(text: string, width: nat)
    requires |text| <= width
    ensures Pad(text, width, AlignLeft) == text + Spaces(width - |text|)
    ensures Pad(text, width, AlignRight) == Spaces(width - |text|) + text
  {

  }
}
