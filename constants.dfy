/** The domain types and fixed tables of the loot raffle: rarities and their ranks,
    class roles and their labels, the record types and the wheel palette. */
module Constants {
  import opened Wrappers

  datatype Rarity = Common | Uncommon | Rare | Epic | Legendary

  datatype ClassRole = Warrior | Berserker | Volva | Archer | Skald | Unknown

  /** A loot entry; `quantity` is whatever number was entered or imported. */
  datatype LootItem = LootItem(
    id: string,
    name: string,
    rarity: Rarity,
    quantity: int,
    source: Option<string>,
    timeLeft: Option<string>)

  datatype Participant = Participant(id: string, name: string, role: ClassRole)

  datatype HistoryItem = HistoryItem(
    id: string,
    itemName: string,
    rarity: Rarity,
    winnerName: string,
    winnerRole: ClassRole,
    quantityWon: int,
    timestamp: string,
    displayTime: string,
    displayDate: string)

  datatype WonItemDetail = WonItemDetail(name: string, rarity: Rarity, quantityWon: int)

  datatype RaffleResult = RaffleResult(winner: Participant, wonItems: seq<WonItemDetail>)

  /** Every rarity, from lowest to highest. */
  const AllRarities: seq<Rarity> := [Common, Uncommon, Rare, Epic, Legendary]

  /** Every class role, in the order of the label table. */
  const AllRoles: seq<ClassRole> := [Warrior, Berserker, Volva, Archer, Skald, Unknown]

  /** `RARITY_ORDER`: the rank of a rarity. */
  function RarityOrder(r: Rarity): (rank: nat)
    ensures 1 <= rank <= 5
    ensures rank == 1 <==> r == Common
    ensures rank == 5 <==> r == Legendary
  {
    match r
    case Common => 1
    case Uncommon => 2
    case Rare => 3
    case Epic => 4
    case Legendary => 5
  }

  /** `CLASSES[role].label`. */
  function ClassLabel(role: ClassRole): (caption: string)
    ensures caption != ""
    ensures caption == "Member" <==> role == Unknown
  {
    match role
    case Warrior => "Warrior"
    case Berserker => "Berserker"
    case Volva => "Volva"
    case Archer => "Archer"
    case Skald => "Skald"
    case Unknown => "Member"
  }

  /** `WHEEL_COLORS`. */
  const WheelColors: seq<string> :=
    ["#ef4444", "#f97316", "#eab308", "#22c55e", "#06b6d4", "#3b82f6", "#8b5cf6", "#d946ef"]

  /** The ranks list the rarities in strictly increasing order, so the rank is a strict
      total order on rarities: two rarities with equal rank are the same rarity. */
  lemma RarityOrderIsStrictTotalOrder()
    ensures forall i, j :: 0 <= i < j < |AllRarities| ==>
      RarityOrder(AllRarities[i]) < RarityOrder(AllRarities[j])
    ensures forall a: Rarity, b: Rarity :: RarityOrder(a) == RarityOrder(b) ==> a == b
    ensures forall a: Rarity, b: Rarity :: a != b ==> RarityOrder(a) < RarityOrder(b) || RarityOrder(b) < RarityOrder(a)
  {
  }

  /** There are exactly five rarities and six roles, each listed once, and eight colours. */
  lemma TableSizes()
    ensures |AllRarities| == 5 && forall r: Rarity :: r in AllRarities
    ensures forall i, j :: 0 <= i < j < |AllRarities| ==> AllRarities[i] != AllRarities[j]
    ensures |AllRoles| == 6 && forall c: ClassRole :: c in AllRoles
    ensures forall i, j :: 0 <= i < j < |AllRoles| ==> AllRoles[i] != AllRoles[j]
    ensures |WheelColors| == 8
  {
    forall r: Rarity ensures r in AllRarities {
      match r
      case Common => assert AllRarities[0] == r;
      case Uncommon => assert AllRarities[1] == r;
      case Rare => assert AllRarities[2] == r;
      case Epic => assert AllRarities[3] == r;
      case Legendary => assert AllRarities[4] == r;
    }
    forall c: ClassRole ensures c in AllRoles {
      match c
      case Warrior => assert AllRoles[0] == c;
      case Berserker => assert AllRoles[1] == c;
      case Volva => assert AllRoles[2] == c;
      case Archer => assert AllRoles[3] == c;
      case Skald => assert AllRoles[4] == c;
      case Unknown => assert AllRoles[5] == c;
    }
  }

  /** The six labels are pairwise distinct. */
  lemma ClassLabelsDistinct()
    ensures forall a: ClassRole, b: ClassRole :: a != b ==> ClassLabel(a) != ClassLabel(b)
  {
  }
}
