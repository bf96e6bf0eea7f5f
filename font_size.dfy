/**
 * The reading font size: four sizes in a fixed order, stepped up and down one
 * at a time, reset to the default, and restored from a stored value on mount.
 */
module FontSizes {
  import opened Wrappers
  import opened SeqUtil

  datatype FontSize = Small | Medium | Large | XLarge

  /** The order used for stepping, smallest first. */
  const FONT_SIZE_ORDER: seq<FontSize> := [Small, Medium, Large, XLarge]

  const DEFAULT_FONT_SIZE: FontSize := Medium

  /** The storage key the size is saved under. */
  const STORAGE_KEY: string := "qanun-docs-font-size"

  /** The stored spelling of each size. */
  function SizeName(size: FontSize): string {
    match size
    case Small => "small"
    case Medium => "medium"
    case Large => "large"
    case XLarge => "xlarge"
  }

  /** `FONT_SIZE_ORDER.indexOf(size)`: every size is in the order. */
  function Rank(size: FontSize): (r: nat)
    ensures r < |FONT_SIZE_ORDER| && FONT_SIZE_ORDER[r] == size
  {
    assert size == FONT_SIZE_ORDER[match size case Small => 0 case Medium => 1 case Large => 2 case XLarge => 3];
    IndexOf(FONT_SIZE_ORDER, size).value
  }

  /** The sizes of the order are distinct, so a position's size has that rank. */
  lemma RankOfPosition(i: nat)
    requires i < |FONT_SIZE_ORDER|
    ensures Rank(FONT_SIZE_ORDER[i]) == i
  {
    var r := Rank(FONT_SIZE_ORDER[i]);
    assert FONT_SIZE_ORDER[r] == FONT_SIZE_ORDER[i];
  }

  /** `increaseFontSize`'s step. */
  function Increased(current: FontSize): FontSize {
    var currentIndex := Rank(current);
    if currentIndex < |FONT_SIZE_ORDER| - 1 then FONT_SIZE_ORDER[currentIndex + 1] else current
  }

  /** `decreaseFontSize`'s step. */
  function Decreased(current: FontSize): FontSize {
    var currentIndex := Rank(current);
    if currentIndex > 0 then FONT_SIZE_ORDER[currentIndex - 1] else current
  }

  function CanIncreaseFrom(size: FontSize): (r: bool)
    ensures r <==> size != XLarge
  {
    Rank(size) < |FONT_SIZE_ORDER| - 1
  }

  function CanDecreaseFrom(size: FontSize): (r: bool)
    ensures r <==> size != Small
  {
    Rank(size) > 0
  }

  /** Increasing moves one step up the order, and stays put at the largest size. */
  lemma IncreaseStepsUp(size: FontSize)
    ensures CanIncreaseFrom(size) ==> Rank(Increased(size)) == Rank(size) + 1
    ensures !CanIncreaseFrom(size) ==> Increased(size) == size
  {
    if CanIncreaseFrom(size) {
      RankOfPosition(Rank(size) + 1);
    }
  }

  /** Decreasing moves one step down the order, and stays put at the smallest size. */
  lemma DecreaseStepsDown(size: FontSize)
    ensures CanDecreaseFrom(size) ==> Rank(Decreased(size)) == Rank(size) - 1
    ensures !CanDecreaseFrom(size) ==> Decreased(size) == size
  {
    if CanDecreaseFrom(size) {
      RankOfPosition(Rank(size) - 1);
    }
  }

  /** A step up that moved is undone by a step down, and the other way round. */
  lemma StepsUndoEachOther(size: FontSize)
    ensures CanIncreaseFrom(size) ==> Decreased(Increased(size)) == size
    ensures CanDecreaseFrom(size) ==> Increased(Decreased(size)) == size
  {
    IncreaseStepsUp(size);
    DecreaseStepsDown(size);
    if CanIncreaseFrom(size) {
      DecreaseStepsDown(Increased(size));
      RankOfPosition(Rank(size));
    }
    if CanDecreaseFrom(size) {
      IncreaseStepsUp(Decreased(size));
      RankOfPosition(Rank(size));
    }
  }

  /** The mount-time check: a stored value is adopted only when it names one of
      the four sizes. */
  function StoredSize(stored: Option<string>): (r: Option<FontSize>)
    ensures r.Some? <==> stored.Some? && exists size :: stored.value == SizeName(size)
    ensures r.Some? ==> stored == Some(SizeName(r.value))
  {
    match stored
    case None => None
    case Some(s) =>
      if s == SizeName(Small) then Some(Small)
      else if s == SizeName(Medium) then Some(Medium)
      else if s == SizeName(Large) then Some(Large)
      else if s == SizeName(XLarge) then Some(XLarge)
      else None
  }

  /** The font-size state of the hook. */
  class FontSizeState {
    var fontSize: FontSize
    var mounted: bool

    /** Before mount: the default size. */
    constructor()
      ensures fontSize == DEFAULT_FONT_SIZE && !mounted
    {
      fontSize := DEFAULT_FONT_SIZE;
      mounted := false;
    }

    /** The mount effect, given what storage holds under the key. */
    method Mount(stored: Option<string>)
      modifies this
      ensures mounted
      ensures fontSize == (if StoredSize(stored).Some? then StoredSize(stored).value else old(fontSize))
    {
      mounted := true;
      var size := StoredSize(stored);
      if size.Some? {
        fontSize := size.value;
      }
    }

    method SetFontSize(size: FontSize)
      modifies this
      ensures fontSize == size && mounted == old(mounted)
    {
      fontSize := size;
    }

    method IncreaseFontSize()
      modifies this
      ensures fontSize == Increased(old(fontSize)) && mounted == old(mounted)
      ensures old(CanIncrease()) ==> Rank(fontSize) == Rank(old(fontSize)) + 1
      ensures !old(CanIncrease()) ==> fontSize == old(fontSize)
    {
      IncreaseStepsUp(fontSize);
      var currentIndex := Rank(fontSize);
      if currentIndex < |FONT_SIZE_ORDER| - 1 {
        fontSize := FONT_SIZE_ORDER[currentIndex + 1];
      }
    }

    method DecreaseFontSize()
      modifies this
      ensures fontSize == Decreased(old(fontSize)) && mounted == old(mounted)
      ensures old(CanDecrease()) ==> Rank(fontSize) == Rank(old(fontSize)) - 1
      ensures !old(CanDecrease()) ==> fontSize == old(fontSize)
    {
      DecreaseStepsDown(fontSize);
      var currentIndex := Rank(fontSize);
      if currentIndex > 0 {
        fontSize := FONT_SIZE_ORDER[currentIndex - 1];
      }
    }

    method ResetFontSize()
      modifies this
      ensures fontSize == DEFAULT_FONT_SIZE && mounted == old(mounted)
    {
      fontSize := DEFAULT_FONT_SIZE;
    }

    function CanIncrease(): (r: bool)
      reads this
      ensures r <==> fontSize != XLarge
    {
      CanIncreaseFrom(fontSize)
    }

    function CanDecrease(): (r: bool)
      reads this
      ensures r <==> fontSize != Small
    {
      CanDecreaseFrom(fontSize)
    }
  }
}
