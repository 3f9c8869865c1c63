/**
 The static part of the economy: the four module kinds a colonist can build,
 what each costs, what each produces, and the four resource kinds.
 */
module Catalog {
  import opened Wrappers

  /** The closed set of module kinds (the keys of the module table). */
  datatype ModuleKind = LivingSpace | Farm | OxygenGenerator | PowerPlant

  /** The four stored resources. */
  datatype Resource = Metal | Energy | Food | Oxygen

  /** A build cost. Oxygen is never part of a cost. */
  datatype Cost = Cost(metal: nat, energy: nat, food: nat)

  /** Extra storage capacity granted by each Living Space. */
  const StorageBonus: nat := 10

  /** Per-module yield of one production tick. */
  const FarmYield: nat := 5
  const OxygenYield: nat := 5
  const PowerYield: nat := 15

  /** The display name of a module kind, which is also its key in the module table. */
  function Name(k: ModuleKind): string
  {
    match k
    case LivingSpace => "Living Space"
    case Farm => "Farm"
    case OxygenGenerator => "Oxygen Generator"
    case PowerPlant => "Power Plant"
  }

  /** The build cost of each kind: every module takes metal, none takes food. */
  function CostOf(k: ModuleKind): (c: Cost)
    ensures 10 <= c.metal <= 25 && c.energy <= 15 && c.food == 0
    ensures c.energy == 0 <==> k == PowerPlant
  {
    match k
    case LivingSpace => Cost(10, 5, 0)
    case Farm => Cost(15, 5, 0)
    case OxygenGenerator => Cost(25, 15, 0)
    case PowerPlant => Cost(20, 0, 0)
  }

  /** Looking a name up in the module table; names outside the table have no entry. */
  function Lookup(name: string): (r: Option<ModuleKind>)
    ensures r.Some? ==> Name(r.value) == name
    ensures r.None? <==> forall k: ModuleKind :: Name(k) != name
  {
    if name == "Living Space" then Some(LivingSpace)
    else if name == "Farm" then Some(Farm)
    else if name == "Oxygen Generator" then Some(OxygenGenerator)
    else if name == "Power Plant" then Some(PowerPlant)
    else None
  }

  /** Every kind is found in the table under its own name, so names identify kinds. */
  lemma LookupName(k: ModuleKind)
    ensures Lookup(Name(k)) == Some(k)
  {
  }
}
