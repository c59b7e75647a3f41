/** The definition rule of the Chinese (base language) page: one line per
    item of the primary definition list. */
module Definitions {

  /** extractTranslate: the text of every list item, in page order and as
      the page gives it (not trimmed). */
  method ExtractTranslate(items: seq<string>) returns (translates: seq<string>)
    ensures |translates| == |items|
    ensures forall k :: 0 <= k < |items| ==> translates[k] == items[k]
  {
    translates := [];
    var i := 0;
    while i < |items|
      invariant 0 <= i <= |items|
      invariant translates == items[..i]
    {
      translates := translates + [items[i]];
      i := i + 1;
    }
  }
}
