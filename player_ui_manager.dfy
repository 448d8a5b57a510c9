/** The heart display of PlayerUIManager.cs. Health is counted in quarter hearts; each heart
    image shows one of five sprites, written here as its fill level 0 (empty) to 4 (full).
    `AssignUI` creates one image per heart of the maximum and fills them from the front;
    `UpdateHealthUI` re-fills the images of a player's panel from the current health and
    mirrors them for player 2. Sprite assets, sizes and scene lookups are abstracted: a
    panel is the array of its heart images in heart-number order, or null when it is
    missing. That is the order `UpdateHealthUI` means to get by sorting the images by name;
    the string sort gives it only up to ten hearts (`NameRank`, `NameSortMisplacesHearts`). */
module PlayerUIManager {
  import PlayerHealth

  function Min(a: int, b: int): int { if a <= b then a else b }
  function Max(a: int, b: int): int { if a >= b then a else b }

  /** C#'s `a / b` for a positive divisor: rounds toward zero. */
  function CsDiv(a: int, b: int): int
    requires b > 0
  {
    if a >= 0 then a / b else -((-a) / b)
  }

  /** C#'s `a % b` for a positive divisor: takes the sign of `a`. */
  function CsRem(a: int, b: int): int
    requires b > 0
  {
    a - b * CsDiv(a, b)
  }

  /** Fill level of heart `k` when `hp` quarter hearts are poured into the hearts from the
      front, four to a heart. */
  function Fill(hp: int, k: nat): (f: int)
    ensures 0 <= f <= 4
  {
    Min(4, Max(0, hp - 4 * k))
  }

  /** `Mathf.CeilToInt(hp / 4f)`, the number of hearts `AssignUI` creates. */
  function HeartCount(hp: int): int
  {
    (hp + 3) / 4
  }

  /** `(maxHP / 4) + (maxHP % 4 != 0 ? 1 : 0) - 1` in C# arithmetic: the last heart index
      `UpdateHealthUI` writes. */
  function MaxHeartIndex(maxHP: int): int
  {
    CsDiv(maxHP, 4) + (if CsRem(maxHP, 4) != 0 then 1 else 0) - 1
  }

  /** Quarter hearts shown by the first `n` hearts. */
  function Displayed(hp: int, n: nat): int
  {
    if n == 0 then 0 else Displayed(hp, n - 1) + Fill(hp, n - 1)
  }

  /** The hearts show all of the health they can hold and no more: the first `n` hearts
      display min(hp, 4n) quarters, and none for a non-positive hp. */
  lemma {:induction false} DisplayedTotal(hp: int, n: nat)
    ensures Displayed(hp, n) == Min(Max(hp, 0), 4 * n)
  {
    if n > 0 {
      DisplayedTotal(hp, n - 1);
    }
  }

  /** The hearts `AssignUI` creates add up to exactly the maximum. */
  lemma AssignedHeartsSumToHP(hp: int)
    requires hp >= 0
    ensures Displayed(hp, HeartCount(hp)) == hp
  {
    DisplayedTotal(hp, HeartCount(hp));
  }

  /** Fill levels never increase along the row of hearts. */
  lemma FillNonIncreasing(hp: int, j: nat, k: nat)
    requires j <= k
    ensures Fill(hp, j) >= Fill(hp, k)
  {
  }

  /** Every heart `AssignUI` creates is full except possibly the last, which holds the
      remainder of the maximum modulo four (a full heart when there is no remainder). */
  lemma AssignedHeartShape(hp: int, k: nat)
    requires hp > 0 && k < HeartCount(hp)
    ensures k < HeartCount(hp) - 1 ==> Fill(hp, k) == 4
    ensures k == HeartCount(hp) - 1 ==> Fill(hp, k) == (if hp % 4 == 0 then 4 else hp % 4)
  {
    var q, r := hp / 4, hp % 4;
    assert hp == 4 * q + r && 0 <= r < 4;
    assert HeartCount(hp) == q + (if r == 0 then 0 else 1);
  }

  /** With a non-negative maximum, `UpdateHealthUI` walks as many positions as `AssignUI`
      created hearts. */
  lemma HeartIndexMatchesCount(maxHP: int)
    requires maxHP >= 0
    ensures MaxHeartIndex(maxHP) + 1 == HeartCount(maxHP)
  {
    var q, r := maxHP / 4, maxHP % 4;
    assert maxHP == 4 * q + r && 0 <= r < 4;
    assert CsDiv(maxHP, 4) == q && CsRem(maxHP, 4) == r;
    assert HeartCount(maxHP) == q + (if r == 0 then 0 else 1);
  }

  /** The decimal digits of `k`, as `ToString` writes them. */
  function Decimal(k: nat): (r: seq<char>)
    ensures |r| >= 1
    decreases k
  {
    if k < 10 then [Digit(k)] else Decimal(k / 10) + [Digit(k % 10)]
  }

  function Digit(d: nat): char
    requires d < 10
  {
    (48 + d) as char
  }

  /** The name `AssignUI` gives heart `k`. */
  function HeartName(k: nat): seq<char>
  {
    "Heart" + Decimal(k)
  }

  /** `a.CompareTo(b) < 0` on these names: character by character, a proper prefix first.
      Letters and digits compare the same way under the culture-sensitive comparison. */
  function LexLess(a: seq<char>, b: seq<char>): bool
  {
    if a == [] then b != []
    else if b == [] then false
    else if a[0] != b[0] then a[0] < b[0]
    else LexLess(a[1..], b[1..])
  }

  /** A shared prefix does not change the comparison. */
  lemma {:induction false} PrefixLess(p: seq<char>, a: seq<char>, b: seq<char>)
    ensures LexLess(p + a, p + b) == LexLess(a, b)
  {
    if p != [] {
      assert (p + a)[1..] == p[1..] + a;
      assert (p + b)[1..] == p[1..] + b;
      PrefixLess(p[1..], a, b);
    } else {
      assert p + a == a && p + b == b;
    }
  }

  /** Names of the hearts among `0..n-1` that sort before heart `k`: the position of heart
      `k` once `UpdateHealthUI` has sorted the panel's `n` images by name. */
  function NameRank(n: nat, k: nat): (r: nat)
    ensures r <= n
  {
    if n == 0 then 0
    else NameRank(n - 1, k) + (if LexLess(HeartName(n - 1), HeartName(k)) then 1 else 0)
  }

  /** Up to ten hearts every name has one digit, so the name sort puts heart `k` at
      position `k`. */
  lemma {:induction false} NameRankUpToTen(n: nat, k: nat)
    requires n <= 10 && k < 10
    ensures NameRank(n, k) == Min(n, k)
  {
    if n > 0 {
      NameRankUpToTen(n - 1, k);
      PrefixLess("Heart", Decimal(n - 1), Decimal(k));
    }
  }

  /** With eleven hearts "Heart10" sorts third: at full health of 42 quarters heart 10, the
      last one, is drawn full and heart 9 half, where the hearts should fill from the front. */
  lemma NameSortMisplacesHearts()
    ensures NameRank(11, 10) == 2 && NameRank(11, 9) == 10
    ensures Fill(42, NameRank(11, 10)) == 4 && Fill(42, NameRank(11, 9)) == 2
    ensures Fill(42, 10) == 2 && Fill(42, 9) == 4
  {
    forall j: nat | 2 <= j < 10
      ensures !LexLess(HeartName(j), HeartName(10))
    {
      DigitVersusTen(j);
    }
    DigitVersusTen(0);
    DigitVersusTen(1);
    TenVersusNine();
    NameRankTail(10, 2, 10);
    NameRankUpToTen(10, 9);
  }

  /** A one-digit name sorts before "Heart10" exactly for hearts 0 and 1. */
  lemma DigitVersusTen(j: nat)
    requires j < 10
    ensures LexLess(HeartName(j), HeartName(10)) == (j <= 1)
  {
    assert Decimal(10) == ['1', '0'];
    PrefixLess("Heart", Decimal(j), Decimal(10));
  }

  /** "Heart10" sorts before "Heart9" and not before itself. */
  lemma TenVersusNine()
    ensures LexLess(HeartName(10), HeartName(9))
    ensures !LexLess(HeartName(10), HeartName(10))
  {
    assert Decimal(10) == ['1', '0'];
    PrefixLess("Heart", Decimal(10), Decimal(9));
    PrefixLess("Heart", Decimal(10), Decimal(10));
  }

  /** Heart `k` keeps its rank among `n` names when none of the names `m..n-1` sorts
      before it. */
  lemma {:induction false} NameRankTail(n: nat, m: nat, k: nat)
    requires m <= n
    requires forall j :: m <= j < n ==> !LexLess(HeartName(j), HeartName(k))
    ensures NameRank(n, k) == NameRank(m, k)
  {
    if n > m {
      NameRankTail(n - 1, m, k);
    }
  }

  /** The sort the source evidently intends, by heart number: it puts heart `k` at position
      `k`, so position `i` of the panel is heart `i` however many hearts there are. */
  function NumberRank(n: nat, k: nat): (r: nat)
    ensures r <= n
  {
    if n == 0 then 0 else NumberRank(n - 1, k) + (if n - 1 < k then 1 else 0)
  }

  lemma {:induction false} NumberRankIsIndex(n: nat, k: nat)
    requires k < n
    ensures NumberRank(n, k) == k
  {
    if n - 1 > k {
      NumberRankIsIndex(n - 1, k);
    } else {
      NumberRankBelow(k, k);
    }
  }

  lemma {:induction false} NumberRankBelow(n: nat, k: nat)
    requires n <= k
    ensures NumberRank(n, k) == n
  {
    if n > 0 {
      NumberRankBelow(n - 1, k);
    }
  }

  /** A heart image under a player's hearts panel: its sprite as a fill level, its
      horizontal offset in the panel and whether its x-scale is -1. */
  datatype HeartImage = HeartImage(fill: int, offsetX: int, mirrored: bool)

  class PlayerUIManager {
    var heartSpacing: int
    var hearts: array<HeartImage>
    var p1Active: bool
    var p2Active: bool

    /** Field initialisers and `Awake`: both player panels start hidden. */
    constructor ()
      ensures heartSpacing == 45 && !p1Active && !p2Active && hearts.Length == 0
    {
      heartSpacing := 45;
      hearts := new HeartImage[0];
      p1Active, p2Active := false, false;
    }

    /** Shows the panel of player `playerIndex` and creates its hearts for the maximum health.
        Any other index changes nothing. The inventory binding is not modelled. */
    method AssignUI(playerHealth: PlayerHealth.PlayerHealth, playerIndex: int)
      requires playerIndex == 0 || playerIndex == 1 ==> playerHealth.maxQuarterHearts > -4
      modifies this
      ensures playerIndex != 0 && playerIndex != 1 ==> unchanged(this)
      ensures playerIndex == 0 ==>
        p1Active && p2Active == old(p2Active) && heartSpacing == old(heartSpacing)
      ensures playerIndex == 1 ==>
        p2Active && p1Active == old(p1Active) && heartSpacing == -old(heartSpacing)
      ensures playerIndex == 0 || playerIndex == 1 ==>
        fresh(hearts) && hearts.Length == HeartCount(playerHealth.maxQuarterHearts) &&
        forall k :: 0 <= k < hearts.Length ==>
          hearts[k] == HeartImage(Fill(playerHealth.maxQuarterHearts, k), heartSpacing * k, false)
    {
      if playerIndex == 0 {
        p1Active := true;
      } else if playerIndex == 1 {
        p2Active := true;
      } else {
        return;
      }

      var hp := playerHealth.GetMaxHealth();
      var totalHearts := (hp + 3) / 4;
      hearts := new HeartImage[totalHearts](_ => HeartImage(0, 0, false));
      var currentHearts := 0;

      if playerIndex == 1 {
        heartSpacing := -heartSpacing;
      }

      var i := hp;
      label Filling:
      while i > 0
        invariant unchanged@Filling(this) && fresh(hearts)
        invariant 0 <= currentHearts <= totalHearts == hearts.Length
        invariant i == if currentHearts == 0 || hp - 4 * currentHearts > 0 then hp - 4 * currentHearts else 0
        invariant currentHearts > 0 ==> hp - 4 * (currentHearts - 1) > 0
        invariant hp <= 0 ==> currentHearts == 0
        invariant forall k :: 0 <= k < currentHearts ==>
          hearts[k] == HeartImage(Fill(hp, k), heartSpacing * k, false)
        decreases i
      {
        hearts[currentHearts] := HeartImage(0, heartSpacing * currentHearts, false);
        if i / 4 > 0 {
          hearts[currentHearts] := hearts[currentHearts].(fill := 4);
          i := i - 4;
        } else if i % 4 == 3 {
          hearts[currentHearts] := hearts[currentHearts].(fill := 3);
          i := i - 3;
        } else if i % 4 == 2 {
          hearts[currentHearts] := hearts[currentHearts].(fill := 2);
          i := i - 2;
        } else if i % 4 == 1 {
          hearts[currentHearts] := hearts[currentHearts].(fill := 1);
          i := i - 1;
        }
        currentHearts := currentHearts + 1;
      }
      assert currentHearts == totalHearts;
    }

    /** Re-fills heart images 0..MaxHeartIndex(max) of `heartsPanel`, taken in heart-number
        order, from the current health and sets their mirroring to "player 2". An index other
        than 0 or 1, or a missing panel, changes nothing. */
    method UpdateHealthUI(playerHealth: PlayerHealth.PlayerHealth, playerIndex: int, heartsPanel: array?<HeartImage>)
      requires heartsPanel != null && (playerIndex == 0 || playerIndex == 1) ==>
        MaxHeartIndex(playerHealth.maxQuarterHearts) < heartsPanel.Length
      modifies heartsPanel
      ensures heartsPanel != null ==> forall k :: 0 <= k < heartsPanel.Length ==>
        heartsPanel[k] ==
          if (playerIndex == 0 || playerIndex == 1) && k <= MaxHeartIndex(playerHealth.maxQuarterHearts)
          then HeartImage(Fill(playerHealth.currentQuarterHearts, k), old(heartsPanel[k].offsetX), playerIndex == 1)
          else old(heartsPanel[k])
    {
      if playerIndex != 0 && playerIndex != 1 {
        return;
      }
      if heartsPanel == null {
        return;
      }

      var maxHP := playerHealth.GetMaxHealth();
      var currentHP := playerHealth.GetCurrentHealth();
      var maxHeartIndex := MaxHeartIndex(maxHP);
      var hpToFill := currentHP;
      ghost var before := heartsPanel[..];

      var i := 0;
      while i <= maxHeartIndex
        invariant 0 <= i <= Max(maxHeartIndex + 1, 0)
        invariant hpToFill == if currentHP <= 0 then currentHP else Max(currentHP - 4 * i, 0)
        invariant |before| == heartsPanel.Length
        invariant forall k :: 0 <= k < heartsPanel.Length ==>
          heartsPanel[k] == if k < i then before[k].(fill := Fill(currentHP, k)) else before[k]
      {
        if hpToFill >= 4 {
          heartsPanel[i] := heartsPanel[i].(fill := 4);
          hpToFill := hpToFill - 4;
        } else if hpToFill == 3 {
          heartsPanel[i] := heartsPanel[i].(fill := 3);
          hpToFill := hpToFill - 3;
        } else if hpToFill == 2 {
          heartsPanel[i] := heartsPanel[i].(fill := 2);
          hpToFill := hpToFill - 2;
        } else if hpToFill == 1 {
          heartsPanel[i] := heartsPanel[i].(fill := 1);
          hpToFill := hpToFill - 1;
        } else {
          heartsPanel[i] := heartsPanel[i].(fill := 0);
        }
        i := i + 1;
      }

      var mirror := playerIndex == 1;
      i := 0;
      while i <= maxHeartIndex
        invariant 0 <= i <= Max(maxHeartIndex + 1, 0)
        invariant forall k :: 0 <= k < heartsPanel.Length ==>
          heartsPanel[k] ==
            if k <= maxHeartIndex then
              before[k].(fill := Fill(currentHP, k), mirrored := if k < i then mirror else before[k].mirrored)
            else before[k]
      {
        heartsPanel[i] := heartsPanel[i].(mirrored := mirror);
        i := i + 1;
      }
    }
  }
}
