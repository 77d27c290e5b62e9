/**
 * Models/Game.swift: the cell kinds of the classic board, the three
 * resources and what winning needs of them, the state of one game with
 * its defaults, and the fixed board layouts.
 */
module BoardModel {
  import opened Wrappers

  /** `CellType`. */
  datatype CellType = Empty | Web | Wood | Water | Mushroom | Berries

  /** `isResource`: the four kinds that lead to a mini-game. */
  predicate IsResource(t: CellType)
  {
    match t
    case Empty | Web => false
    case Wood | Water | Mushroom | Berries => true
  }

  datatype Position = Position(row: int, column: int)

  /**
   * `Cell` without its UUID. The completion flag, set once the cell's
   * mini-game is over, is not declared in Game.swift although the board
   * view-model writes it; here it is a field that starts false.
   */
  datatype Cell = Cell(position: Position, kind: CellType, isRevealed: bool, isCompleted: bool)

  /** A cell as `createBoard` builds it. */
  function NewCell(p: Position, t: CellType): (c: Cell)
    ensures c.position == p && c.kind == t
    ensures !c.isRevealed && !c.isCompleted
  {
    Cell(p, t, false, false)
  }

  /** `ResourceType`. */
  datatype ResourceType = WoodResource | WaterResource | FoodResource

  /** `required`: each resource is needed twice. */
  function Required(r: ResourceType): nat
  {
    2
  }

  /** The resource a won mini-game on a cell of this kind credits; mushrooms and berries are both food. */
  function ResourceFor(t: CellType): (r: Option<ResourceType>)
    ensures r.Some? <==> IsResource(t)
    ensures r == Some(FoodResource) <==> t == Mushroom || t == Berries
    ensures r == Some(WoodResource) <==> t == Wood
    ensures r == Some(WaterResource) <==> t == Water
  {
    match t
    case Wood => Some(WoodResource)
    case Water => Some(WaterResource)
    case Mushroom | Berries => Some(FoodResource)
    case _ => None
  }

  /** The count of a resource, read as 0 when the dictionary has no entry. */
  function Amount(resources: map<ResourceType, int>, r: ResourceType): int
  {
    if r in resources then resources[r] else 0
  }

  /** The win test of `checkWinCondition`: every resource has reached its requirement. */
  predicate AllRequirementsMet(resources: map<ResourceType, int>)
  {
    && Amount(resources, WoodResource) >= Required(WoodResource)
    && Amount(resources, WaterResource) >= Required(WaterResource)
    && Amount(resources, FoodResource) >= Required(FoodResource)
  }

  /** `GameState`. */
  datatype GameState = GameState(resources: map<ResourceType, int>, movesLeft: int, isGameOver: bool, hasWon: bool)

  const InitialMoves := 10

  /** `GameState()`: no resources, ten moves, neither over nor won. */
  function DefaultGameState(): (g: GameState)
    ensures Amount(g.resources, WoodResource) == 0 && Amount(g.resources, WaterResource) == 0
    ensures Amount(g.resources, FoodResource) == 0
    ensures WoodResource in g.resources && WaterResource in g.resources && FoodResource in g.resources
    ensures g.movesLeft == InitialMoves && !g.isGameOver && !g.hasWon
    ensures !AllRequirementsMet(g.resources)
  {
    GameState(map[WoodResource := 0, WaterResource := 0, FoodResource := 0], InitialMoves, false, false)
  }

  const BoardSize := 5
  const TotalCells := BoardSize * BoardSize

  /** `resourceDistribution`: how many cells of each kind a layout holds. */
  function Distribution(t: CellType): nat
  {
    match t
    case Wood => 4
    case Water => 4
    case Mushroom => 2
    case Berries => 2
    case Web => 5
    case Empty => 8
  }

  /** `layouts`: the predefined layouts, each listed row by row. */
  const Layouts: seq<seq<CellType>> := [Layout1]

  const Layout1: seq<CellType> :=
    [Wood,    Water, Empty, Web,   Mushroom] +
    [Web,     Empty, Wood,  Water, Empty] +
    [Empty,   Web,   Empty, Wood,  Berries] +
    [Water,   Empty, Web,   Empty, Wood] +
    [Berries, Web,   Water, Empty, Mushroom]

  /** The number of entries of `layout` of kind `t`. */
  function Count(layout: seq<CellType>, t: CellType): nat
  {
    multiset(layout)[t]
  }

  /** The first layout holds each kind as often as the distribution says. */
  lemma Layout1Wood()
    ensures Count(Layout1, Wood) == 4
  {
  }

  lemma Layout1Water()
    ensures Count(Layout1, Water) == 4
  {
  }

  lemma Layout1Mushroom()
    ensures Count(Layout1, Mushroom) == 2
  {
  }

  lemma Layout1Berries()
    ensures Count(Layout1, Berries) == 2
  {
  }

  lemma Layout1Web()
    ensures Count(Layout1, Web) == 5
  {
  }

  lemma Layout1Empty()
    ensures Count(Layout1, Empty) == 8
  {
  }

  /** Every layout has one entry per cell of the board. */
  lemma LayoutSize(k: int)
    requires 0 <= k < |Layouts|
    ensures |Layouts[k]| == TotalCells
  {
    assert Layouts[k] == Layout1;
  }

  /** Every layout holds each kind as often as the distribution says. */
  lemma LayoutsMatchDistribution(k: int, t: CellType)
    requires 0 <= k < |Layouts|
    ensures Count(Layouts[k], t) == Distribution(t)
  {
    assert Layouts[k] == Layout1;
    match t {
      case Wood => Layout1Wood();
      case Water => Layout1Water();
      case Mushroom => Layout1Mushroom();
      case Berries => Layout1Berries();
      case Web => Layout1Web();
      case Empty => Layout1Empty();
    }
  }
}
