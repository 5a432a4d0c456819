/**
 * The three kinds of game entity: items (fixed values with an identity),
 * characters (health, attack power and an inventory, all updated in place)
 * and locations (who and what is there, and the exits).
 */
module Entities {
  import opened Text
  import opened Lists

  /** An item's `type` string: "healing" and "weapon" have an effect when
      used, every other string (the quest item's "quest") has none. */
  datatype Kind = Healing | Weapon | Other(tag: string)

  /** Created once when the world is set up and never changed; two items
      are the same item only if they are the same object. */
  class Item {
    const name: string
    const kind: Kind
    const value: int

    constructor (name: string, kind: Kind, value: int)
      ensures this.name == name && this.kind == kind && this.value == value
    {
      this.name := name;
      this.kind := kind;
      this.value := value;
    }
  }

  function ItemNames(items: seq<Item>): (names: seq<string>)
    ensures |names| == |items|
    ensures forall k :: 0 <= k < |items| ==> names[k] == items[k].name
  {
    seq(|items|, k requires 0 <= k < |items| => items[k].name)
  }

  /** The mutable part of a character, as a value. */
  datatype Stats = Stats(health: int, attackPower: int, inventory: seq<Item>)

  /** Health after taking `amount` damage: reduced by the amount, but never
      below zero. */
  function Damaged(health: int, amount: int): (r: int)
    ensures r >= 0
    ensures health - amount >= 0 ==> r == health - amount
    ensures health - amount < 0 ==> r == 0
  {
    if health - amount < 0 then 0 else health - amount
  }

  /** A character that takes damage is still alive exactly when its health
      exceeded the damage. */
  lemma AliveAfterDamage(health: int, amount: int)
    ensures Damaged(health, amount) > 0 <==> health > amount
  {
  }

  /** The effect of `useItem(itemName)` on a character: look the name up in
      the inventory ignoring case; a healing item adds its value to health
      and is consumed, a weapon adds its value to attack power and stays,
      anything else, or a name not carried, changes nothing. */
  function Used(s: Stats, itemName: string): (r: Stats)
  {
    var i := FindName(ItemNames(s.inventory), itemName);
    if i == -1 then s
    else
      var item := s.inventory[i];
      match item.kind
      case Healing => Stats(s.health + item.value, s.attackPower, RemoveAt(s.inventory, i))
      case Weapon => s.(attackPower := s.attackPower + item.value)
      case Other(_) => s
  }

  /** Using an item never adds to the inventory: at most one entry goes,
      and nothing else changes. */
  lemma UseOnlyConsumes(s: Stats, itemName: string)
    ensures var r := Used(s, itemName);
            multiset(r.inventory) <= multiset(s.inventory)
            && |s.inventory| - 1 <= |r.inventory| <= |s.inventory|
  {
  }

  /** `i` is the position of the first item in `inv` named `itemName`,
      ignoring case. */
  predicate FirstNamed(inv: seq<Item>, i: int, itemName: string) {
    0 <= i < |inv| && SameName(inv[i].name, itemName)
    && forall k :: 0 <= k < i ==> !SameName(inv[k].name, itemName)
  }

  lemma FindNameFirst(inv: seq<Item>, i: int, itemName: string)
    requires FirstNamed(inv, i, itemName)
    ensures FindName(ItemNames(inv), itemName) == i
  {
    var r := FindName(ItemNames(inv), itemName);
    assert ItemNames(inv)[i] == inv[i].name;
  }

  /** Using a name that matches nothing in the inventory changes nothing. */
  lemma UseMissing(s: Stats, itemName: string)
    requires forall k :: 0 <= k < |s.inventory| ==> !SameName(s.inventory[k].name, itemName)
    ensures Used(s, itemName) == s
  {
  }

  /** Using a healing item raises health by exactly its value and removes
      only the first matching entry, keeping the others in order. */
  lemma UseHealing(s: Stats, i: int, itemName: string)
    requires FirstNamed(s.inventory, i, itemName) && s.inventory[i].kind == Healing
    ensures Used(s, itemName).health == s.health + s.inventory[i].value
    ensures Used(s, itemName).attackPower == s.attackPower
    ensures Used(s, itemName).inventory == s.inventory[..i] + s.inventory[i + 1..]
  {
    FindNameFirst(s.inventory, i, itemName);
  }

  /** Using a weapon raises attack power by its value and keeps the
      inventory as it is. */
  lemma UseWeapon(s: Stats, i: int, itemName: string)
    requires FirstNamed(s.inventory, i, itemName) && s.inventory[i].kind == Weapon
    ensures Used(s, itemName) == Stats(s.health, s.attackPower + s.inventory[i].value, s.inventory)
  {
    FindNameFirst(s.inventory, i, itemName);
  }

  /** The weapon stays in the inventory, so using it twice adds its value
      twice. */
  lemma UseWeaponTwice(s: Stats, i: int, itemName: string)
    requires FirstNamed(s.inventory, i, itemName) && s.inventory[i].kind == Weapon
    ensures Used(Used(s, itemName), itemName)
            == Stats(s.health, s.attackPower + 2 * s.inventory[i].value, s.inventory)
  {
    UseWeapon(s, i, itemName);
    UseWeapon(Used(s, itemName), i, itemName);
  }

  /** Using an item of any other type changes nothing. */
  lemma UseOther(s: Stats, i: int, itemName: string)
    requires FirstNamed(s.inventory, i, itemName) && s.inventory[i].kind.Other?
    ensures Used(s, itemName) == s
  {
    FindNameFirst(s.inventory, i, itemName);
  }

  class Character {
    const name: string
    var health: int
    var attackPower: int
    var inventory: seq<Item>

    constructor (name: string, health: int, attackPower: int)
      ensures this.name == name && this.health == health && this.attackPower == attackPower
      ensures inventory == []
    {
      this.name := name;
      this.health := health;
      this.attackPower := attackPower;
      inventory := [];
    }

    ghost function State(): Stats
      reads this
    {
      Stats(health, attackPower, inventory)
    }

    predicate IsAlive()
      reads this
    {
      health > 0
    }

    /** Strikes `target` for this character's attack power. */
    method Attack(target: Character)
      modifies target`health
      ensures target.health == Damaged(old(target.health), old(attackPower))
    {
      var dmg := attackPower;
      target.TakeDamage(dmg);
    }

    method TakeDamage(amount: int)
      modifies this`health
      ensures health == Damaged(old(health), amount)
    {
      health := health - amount;
      if health < 0 {
        health := 0;
      }
    }

    method PickUpItem(item: Item)
      modifies this`inventory
      ensures inventory == old(inventory) + [item]
    {
      inventory := inventory + [item];
    }

    method UseItem(itemName: string)
      modifies this`health, this`attackPower, this`inventory
      ensures State() == Used(old(State()), itemName)
    {
      ghost var before := State();
      var index := FindName(ItemNames(inventory), itemName);
      if index == -1 {
        return;
      }
      var item := inventory[index];
      if item.kind == Healing {
        health := health + item.value;
        inventory := RemoveAt(inventory, index);
        assert Used(before, itemName) == Stats(health, attackPower, inventory);
      } else if item.kind == Weapon {
        attackPower := attackPower + item.value;
        assert Used(before, itemName) == Stats(health, attackPower, inventory);
      }
    }
  }

  /** A character the player may attack (or talk to) under the name `key`:
      someone other than the player, alive, named `key` ignoring case. */
  predicate IsOpponent(c: Character, player: Character, key: string)
    reads c
  {
    c != player && c.IsAlive() && SameName(c.name, key)
  }

  /** lodash `_.find` over a location's characters with `IsOpponent`, as
      the index of the first such character, or -1. */
  function FindOpponent(cs: seq<Character>, player: Character, key: string): (r: int)
    reads cs
    ensures -1 <= r < |cs|
    ensures r == -1 <==> forall k :: 0 <= k < |cs| ==> !IsOpponent(cs[k], player, key)
    ensures 0 <= r ==> IsOpponent(cs[r], player, key)
                       && forall k :: 0 <= k < r ==> !IsOpponent(cs[k], player, key)
  {
    if |cs| == 0 then -1
    else if IsOpponent(cs[0], player, key) then 0
    else
      var r := FindOpponent(cs[1..], player, key);
      if r == -1 then -1 else r + 1
  }

  class Location {
    const name: string
    var characters: seq<Character>
    var items: seq<Item>
    var connectedLocations: seq<Location>

    constructor (name: string)
      ensures this.name == name
      ensures characters == [] && items == [] && connectedLocations == []
    {
      this.name := name;
      characters := [];
      items := [];
      connectedLocations := [];
    }

    /** Links go both ways and are never duplicated; linking an already
        linked pair changes nothing. */
    method Connect(other: Location)
      modifies this`connectedLocations, other`connectedLocations
      ensures connectedLocations == AddIfAbsent(old(connectedLocations), other)
      ensures other.connectedLocations == AddIfAbsent(old(other.connectedLocations), this)
    {
      if other !in connectedLocations {
        connectedLocations := connectedLocations + [other];
      }
      if this !in other.connectedLocations {
        other.connectedLocations := other.connectedLocations + [this];
      }
    }

    /** The neighbour called `newLocationName` (ignoring case, the first one
        if several are), or this location when there is none. Only looks:
        the caller does the moving. */
    function Move(newLocationName: string): (r: Location)
      reads this
      ensures (forall k :: 0 <= k < |connectedLocations| ==> !SameName(connectedLocations[k].name, newLocationName))
              ==> r == this
      ensures forall i :: 0 <= i < |connectedLocations| && SameName(connectedLocations[i].name, newLocationName)
                          && (forall k :: 0 <= k < i ==> !SameName(connectedLocations[k].name, newLocationName))
                          ==> r == connectedLocations[i]
    {
      var i := FindName(LocationNames(connectedLocations), newLocationName);
      if i == -1 then this else connectedLocations[i]
    }
  }

  function LocationNames(ls: seq<Location>): (names: seq<string>)
    ensures |names| == |ls|
    ensures forall k :: 0 <= k < |ls| ==> names[k] == ls[k].name
  {
    seq(|ls|, k requires 0 <= k < |ls| => ls[k].name)
  }
}
