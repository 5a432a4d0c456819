/**
 * One play session of Caffeine Quest: the fixed world (three rooms, four
 * characters, three items), the current room and the game-over flag, and
 * the gameplay operations that `handleCommand` dispatches to.
 */
module Game {
  import opened Text
  import opened Lists
  import opened Entities
  import opened Commands

  const OfficeName := "Open Office"
  const KitchenName := "Break Room"
  const ServersName := "Server Room"

  const ColdCoffeeName := "Cold Coffee"
  const MugName := "Motivational Mug"
  const EspressoName := "Sacred Espresso Shot"
  const QuestTag := "quest"
  const PlayerName := "Exhausted Dev"
  const InternName := "Intern (Unpaid)"
  const SalesName := "Bitter Sales Guy"
  const DemonName := "Espresso Demon"

  method MakeItems() returns (cold: Item, mug: Item, espresso: Item)
    ensures cold.name == ColdCoffeeName && cold.kind == Healing && cold.value == 10
    ensures mug.name == MugName && mug.kind == Weapon && mug.value == 2
    ensures espresso.name == EspressoName && espresso.kind == Other(QuestTag) && espresso.value == 0
  {
    cold := new Item(ColdCoffeeName, Healing, 10);
    mug := new Item(MugName, Weapon, 2);
    espresso := new Item(EspressoName, Other(QuestTag), 0);
  }

  method MakeCast() returns (dev: Character, unpaid: Character, sales: Character, demon: Character)
    ensures fresh(dev) && fresh(unpaid) && fresh(sales) && fresh(demon)
    ensures dev != unpaid && dev != sales && dev != demon && unpaid != sales && unpaid != demon && sales != demon
    ensures dev.name == PlayerName && dev.health == 25 && dev.attackPower == 4 && dev.inventory == []
    ensures unpaid.name == InternName && unpaid.health == 15 && unpaid.attackPower == 0 && unpaid.inventory == []
    ensures sales.name == SalesName && sales.health == 16 && sales.attackPower == 3 && sales.inventory == []
    ensures demon.name == DemonName && demon.health == 28 && demon.attackPower == 6 && demon.inventory == []
  {
    dev := new Character(PlayerName, 25, 4);
    unpaid := new Character(InternName, 15, 0);
    sales := new Character(SalesName, 16, 3);
    demon := new Character(DemonName, 28, 6);
  }

  /** The three rooms, linked as the page links them. */
  method MakeRooms() returns (office: Location, kitchen: Location, servers: Location)
    ensures fresh(office) && fresh(kitchen) && fresh(servers)
    ensures office != kitchen && kitchen != servers && office != servers
    ensures office.name == OfficeName && kitchen.name == KitchenName && servers.name == ServersName
    ensures office.characters == [] && kitchen.characters == [] && servers.characters == []
    ensures office.items == [] && kitchen.items == [] && servers.items == []
    ensures office.connectedLocations == [kitchen]
    ensures kitchen.connectedLocations == [office, servers]
    ensures servers.connectedLocations == [kitchen]
  {
    office := new Location(OfficeName);
    kitchen := new Location(KitchenName);
    servers := new Location(ServersName);
    office.Connect(kitchen);
    assert office.connectedLocations == [kitchen] && kitchen.connectedLocations == [office];
    kitchen.Connect(servers);
  }

  /** Places `cs` and `its` in an empty room `l`. */
  method Furnish(l: Location, cs: seq<Character>, its: seq<Item>)
    requires l.characters == [] && l.items == []
    modifies l`characters, l`items
    ensures l.characters == cs && l.items == its
  {
    l.characters := l.characters + cs;
    l.items := l.items + its;
  }

  /** Everything a command can change, as a value: the current room, the
      game-over flag, who and what is in each room, the player's health,
      attack power and inventory, and the other characters' health. */
  datatype World = World(
    current: Location, over: bool,
    officeCharacters: seq<Character>, breakRoomCharacters: seq<Character>, serverRoomCharacters: seq<Character>,
    officeItems: seq<Item>, breakRoomItems: seq<Item>, serverRoomItems: seq<Item>,
    player: Stats, internHealth: int, salesGuyHealth: int, demonHealth: int)

  class Session {
    const coldCoffee: Item
    const motivationalMug: Item
    const sacredEspresso: Item
    const player: Character
    const intern: Character
    const salesGuy: Character
    const espressoDemon: Character
    const openOffice: Location
    const breakRoom: Location
    const serverRoom: Location

    var currentLocation: Location
    var gameOver: bool

    ghost function Chars(): set<Character> {
      {player, intern, salesGuy, espressoDemon}
    }

    ghost function Locs(): set<Location> {
      {openOffice, breakRoom, serverRoom}
    }

    /** A room with these characters and exits is well formed: its
        occupants are characters of the world, and its exits are rooms of
        the world, each listed once. */
    ghost predicate GoodRoom(characters: seq<Character>, exits: seq<Location>) {
      && (forall k :: 0 <= k < |characters| ==> characters[k] in Chars())
      && NoDup(characters)
      && (forall k :: 0 <= k < |exits| ==> exits[k] in Locs())
      && NoDup(exits)
    }

    /** Each room's exits lead back to it. */
    ghost predicate Linked(a: Location, b: Location)
      reads a`connectedLocations, b`connectedLocations
    {
      b in a.connectedLocations <==> a in b.connectedLocations
    }

    ghost predicate RoomValid(l: Location)
      reads l`characters, l`connectedLocations
    {
      GoodRoom(l.characters, l.connectedLocations)
    }

    /** Recording the player in a well-formed room keeps it well formed. */
    lemma AdmitPlayer(characters: seq<Character>, exits: seq<Location>)
      requires GoodRoom(characters, exits)
      ensures GoodRoom(AddIfAbsent(characters, player), exits)
    {
      AddIfAbsentNoDup(characters, player);
    }

    /** The four characters are four objects, and so are the three rooms. */
    predicate Distinct() {
      && player != intern && player != salesGuy && player != espressoDemon
      && intern != salesGuy && intern != espressoDemon && salesGuy != espressoDemon
      && openOffice != breakRoom && breakRoom != serverRoom && openOffice != serverRoom
    }

    /** The session invariant: the world's objects are distinct, the current
        room is a room of the world,
        the player is listed among its characters, every room is well
        formed, and every exit can be taken back. */
    ghost predicate Valid()
      reads this`currentLocation, currentLocation`characters
      reads openOffice`characters, openOffice`connectedLocations
      reads breakRoom`characters, breakRoom`connectedLocations
      reads serverRoom`characters, serverRoom`connectedLocations
    {
      && Distinct()
      && currentLocation in Locs()
      && player in currentLocation.characters
      && RoomValid(openOffice) && RoomValid(breakRoom) && RoomValid(serverRoom)
      && Linked(openOffice, breakRoom) && Linked(breakRoom, serverRoom) && Linked(serverRoom, openOffice)
    }

    /** The world as it is built when the page loads. */
    constructor ()
      ensures Valid()
      ensures fresh(openOffice) && fresh(breakRoom) && fresh(serverRoom)
      ensures fresh(player) && fresh(intern) && fresh(salesGuy) && fresh(espressoDemon)
      ensures !gameOver && currentLocation == openOffice
      ensures coldCoffee.name == ColdCoffeeName && coldCoffee.kind == Healing && coldCoffee.value == 10
      ensures motivationalMug.name == MugName && motivationalMug.kind == Weapon && motivationalMug.value == 2
      ensures sacredEspresso.name == EspressoName && sacredEspresso.kind == Other(QuestTag) && sacredEspresso.value == 0
      ensures player.name == PlayerName && player.health == 25 && player.attackPower == 4 && player.inventory == []
      ensures intern.name == InternName && intern.health == 15 && intern.attackPower == 0 && intern.inventory == []
      ensures salesGuy.name == SalesName && salesGuy.health == 16 && salesGuy.attackPower == 3 && salesGuy.inventory == []
      ensures espressoDemon.name == DemonName && espressoDemon.health == 28 && espressoDemon.attackPower == 6
              && espressoDemon.inventory == []
      ensures openOffice.name == OfficeName && breakRoom.name == KitchenName && serverRoom.name == ServersName
      ensures openOffice.characters == [player, intern] && openOffice.items == [coldCoffee]
      ensures breakRoom.characters == [salesGuy] && breakRoom.items == [motivationalMug]
      ensures serverRoom.characters == [espressoDemon] && serverRoom.items == [sacredEspresso]
      ensures openOffice.connectedLocations == [breakRoom]
      ensures breakRoom.connectedLocations == [openOffice, serverRoom]
      ensures serverRoom.connectedLocations == [breakRoom]
    {
      var cold, mug, espresso := MakeItems();
      var dev, unpaid, sales, demon := MakeCast();

      var office, kitchen, servers := MakeRooms();
      Furnish(office, [dev, unpaid], [cold]);
      Furnish(kitchen, [sales], [mug]);
      Furnish(servers, [demon], [espresso]);

      coldCoffee, motivationalMug, sacredEspresso := cold, mug, espresso;
      player, intern, salesGuy, espressoDemon := dev, unpaid, sales, demon;
      openOffice, breakRoom, serverRoom := office, kitchen, servers;
      currentLocation := office;
      gameOver := false;
      new;
      StartIsValid();
    }

    /** The world as the page sets it up satisfies the session invariant. */
    lemma StartIsValid()
      requires Distinct() && currentLocation == openOffice
      requires openOffice.characters == [player, intern] && breakRoom.characters == [salesGuy]
               && serverRoom.characters == [espressoDemon]
      requires openOffice.connectedLocations == [breakRoom]
               && breakRoom.connectedLocations == [openOffice, serverRoom]
               && serverRoom.connectedLocations == [breakRoom]
      ensures Valid()
    {
    }

    /** The state commands can change, read off the objects. */
    ghost function Snapshot(): World
      reads this`currentLocation, this`gameOver
      reads openOffice`characters, breakRoom`characters, serverRoom`characters
      reads openOffice`items, breakRoom`items, serverRoom`items
      reads player`health, player`attackPower, player`inventory
      reads intern`health, salesGuy`health, espressoDemon`health
    {
      World(currentLocation, gameOver,
            openOffice.characters, breakRoom.characters, serverRoom.characters,
            openOffice.items, breakRoom.items, serverRoom.items,
            Stats(player.health, player.attackPower, player.inventory),
            intern.health, salesGuy.health, espressoDemon.health)
    }

    /** `w` with room `l`'s floor items replaced. */
    ghost function WithItems(w: World, l: Location, items: seq<Item>): World {
      if l == openOffice then w.(officeItems := items)
      else if l == breakRoom then w.(breakRoomItems := items)
      else w.(serverRoomItems := items)
    }

    /** `w` with room `l`'s characters replaced. */
    ghost function WithCharacters(w: World, l: Location, characters: seq<Character>): World {
      if l == openOffice then w.(officeCharacters := characters)
      else if l == breakRoom then w.(breakRoomCharacters := characters)
      else w.(serverRoomCharacters := characters)
    }

    /** Room `l`'s floor items in `w`. */
    ghost function ItemsAt(w: World, l: Location): seq<Item> {
      if l == openOffice then w.officeItems
      else if l == breakRoom then w.breakRoomItems
      else w.serverRoomItems
    }

    /** Room `l`'s characters in `w`. */
    ghost function CharactersAt(w: World, l: Location): seq<Character> {
      if l == openOffice then w.officeCharacters
      else if l == breakRoom then w.breakRoomCharacters
      else w.serverRoomCharacters
    }

    /** Character `c`'s health in `w`. */
    ghost function HealthIn(w: World, c: Character): int {
      if c == intern then w.internHealth
      else if c == salesGuy then w.salesGuyHealth
      else if c == espressoDemon then w.demonHealth
      else w.player.health
    }

    /** Replacing room `l`'s characters changes only that room's. */
    lemma CharactersReplaced(w: World, l: Location, characters: seq<Character>)
      requires Distinct() && l in Locs()
      ensures CharactersAt(WithCharacters(w, l, characters), l) == characters
      ensures forall m :: m in Locs() && m != l
                ==> CharactersAt(WithCharacters(w, l, characters), m) == CharactersAt(w, m)
      ensures forall m :: ItemsAt(WithCharacters(w, l, characters), m) == ItemsAt(w, m)
    {
    }

    /** `w` with character `c`'s health replaced. */
    ghost function WithHealth(w: World, c: Character, health: int): World {
      if c == intern then w.(internHealth := health)
      else if c == salesGuy then w.(salesGuyHealth := health)
      else if c == espressoDemon then w.(demonHealth := health)
      else w.(player := w.player.(health := health))
    }

    /** The world after `pickupItem(itemName)`: the first floor item of the
        current room with that name leaves the floor, is appended to the
        inventory, and the game is won if the Sacred Espresso is now held;
        with no such item the world stays as it is. */
    ghost function PickedUp(itemName: string): World
      requires Valid()
      reads this, Locs(), Chars()
    {
      var floor := currentLocation.items;
      var i := FindName(ItemNames(floor), itemName);
      if i == -1 then Snapshot()
      else
        var inventory := player.inventory + [floor[i]];
        WithItems(Snapshot(), currentLocation, RemoveAt(floor, i))
          .(player := Stats(player.health, player.attackPower, inventory),
            over := gameOver || sacredEspresso in inventory)
    }

    /** The world after one exchange of blows with `enemy`: the enemy takes
        the player's attack; brought to zero it strikes no blow back and the
        win check runs, otherwise it strikes back once and the game is over
        if the player is then at zero. */
    ghost function Struck(enemy: Character): World
      requires enemy in Chars()
      reads this, Locs(), Chars()
    {
      var enemyHealth := Damaged(enemy.health, player.attackPower);
      var w := WithHealth(Snapshot(), enemy, enemyHealth);
      if enemyHealth == 0 then
        w.(over := gameOver || enemy == espressoDemon || sacredEspresso in player.inventory)
      else
        var playerHealth := Damaged(player.health, enemy.attackPower);
        w.(player := w.player.(health := playerHealth), over := gameOver || playerHealth == 0)
    }

    /** The world after `attackTarget(targetName)`: an exchange of blows
        with the first living non-player here of that name, if there is
        one. */
    ghost function Attacked(targetName: string): World
      requires Valid()
      reads this, Locs(), Chars()
    {
      var i := FindOpponent(currentLocation.characters, player, targetName);
      if i == -1 then Snapshot() else Struck(currentLocation.characters[i])
    }

    /** The world after the `move`/`go` case: if the exit leads to another
        room, that room becomes current and lists the player (once). */
    ghost function Moved(locationName: string): World
      requires Valid()
      reads this, Locs(), Chars()
    {
      var dest := currentLocation.Move(locationName);
      if dest == currentLocation then Snapshot()
      else WithCharacters(Snapshot(), dest, AddIfAbsent(dest.characters, player)).(current := dest)
    }

    /** The world after `secretCaffeineBoost()`. */
    ghost function Boosted(): World
      reads this, Locs(), Chars()
    {
      if gameOver then Snapshot()
      else Snapshot().(player := Stats(player.health + 20, player.attackPower + 3, player.inventory))
    }

    /** The world after the `switch` of `handleCommand` performs `c`. */
    ghost function Next(c: Command): World
      requires Valid()
      reads this, Locs(), Chars()
    {
      match c
      case Pickup(itemName) => PickedUp(itemName)
      case Use(itemName) => Snapshot().(player := Used(Snapshot().player, itemName))
      case Attack(targetName) => Attacked(targetName)
      case MoveTo(locationName) => Moved(locationName)
      case Coffee => Boosted()
      case Quit => Snapshot().(over := true)
      case _ => Snapshot()
    }

    /** The world after `handleCommand(rawInput)` on a running game and a
        line that is not blank: the line's command is performed, and then
        the game is over if the player is at zero health. */
    ghost function AfterLine(rawInput: string): World
      requires Valid() && !AllWhitespace(rawInput)
      reads this, Locs(), Chars()
    {
      var w := Next(Interpret(ParseLine(rawInput).value));
      w.(over := w.over || w.player.health <= 0)
    }

    /** Picking up a name that matches nothing on the floor changes
        nothing. */
    lemma PickupMissing(itemName: string)
      requires Valid()
      requires forall k :: 0 <= k < |currentLocation.items| ==> !SameName(currentLocation.items[k].name, itemName)
      ensures PickedUp(itemName) == Snapshot()
    {
      assert FindName(ItemNames(currentLocation.items), itemName) == -1;
    }

    /** Picking up the Sacred Espresso Shot wins the game. */
    lemma PickupEspressoWins(itemName: string, i: int)
      requires Valid() && FirstNamed(currentLocation.items, i, itemName)
      requires currentLocation.items[i] == sacredEspresso
      ensures PickedUp(itemName).over
    {
      FindNameFirst(currentLocation.items, i, itemName);
    }

    /** An exchange of blows: the enemy loses the player's attack power
        (down to zero at most); brought to zero it strikes no blow back, so
        the player is unchanged; otherwise the player loses the enemy's
        attack power, and the game is over if that leaves the player at
        zero. Nobody else is touched, no room changes, and a finished game
        stays finished. */
    lemma StrikeBack(enemy: Character)
      requires Valid() && enemy in Chars() && enemy != player
      ensures HealthIn(Struck(enemy), enemy) == Damaged(enemy.health, player.attackPower)
      ensures Damaged(enemy.health, player.attackPower) == 0 ==> Struck(enemy).player == Snapshot().player
      ensures Damaged(enemy.health, player.attackPower) > 0
              ==> Struck(enemy).player
                  == Stats(Damaged(player.health, enemy.attackPower), player.attackPower, player.inventory)
      ensures Damaged(enemy.health, player.attackPower) > 0 && Damaged(player.health, enemy.attackPower) == 0
              ==> Struck(enemy).over
      ensures forall c :: c in Chars() && c != enemy && c != player ==> HealthIn(Struck(enemy), c) == c.health
      ensures Struck(enemy).current == currentLocation
      ensures forall l :: l in Locs() ==> CharactersAt(Struck(enemy), l) == l.characters
      ensures forall l :: l in Locs() ==> ItemsAt(Struck(enemy), l) == l.items
      ensures gameOver ==> Struck(enemy).over
    {
    }

    /** `move`/`go` with a name that is no exit of the current room changes
        nothing. */
    lemma MoveNowhere(locationName: string)
      requires Valid()
      requires forall k :: 0 <= k < |currentLocation.connectedLocations|
                 ==> !SameName(currentLocation.connectedLocations[k].name, locationName)
      ensures Moved(locationName) == Snapshot()
    {
    }

    /** `move`/`go`: the current room becomes the exit's answer; entering
        another room appends the player to it unless already listed, and
        every other room, the one left behind included, keeps its
        characters. */
    lemma MovedRooms(locationName: string)
      requires Valid()
      ensures Moved(locationName).current == currentLocation.Move(locationName)
      ensures currentLocation.Move(locationName) != currentLocation
              ==> CharactersAt(Moved(locationName), currentLocation.Move(locationName))
                  == AddIfAbsent(currentLocation.Move(locationName).characters, player)
      ensures forall l :: l in Locs() && l != currentLocation.Move(locationName)
                ==> CharactersAt(Moved(locationName), l) == l.characters
    {
      var dest := currentLocation.Move(locationName);
      assert dest in Locs();
      if dest != currentLocation {
        CharactersReplaced(Snapshot(), dest, AddIfAbsent(dest.characters, player));
      }
    }

    /** `move`/`go` changes no floor item, no statistic and not the
        game-over flag. */
    lemma MoveKeepsRest(locationName: string)
      requires Valid()
      ensures Moved(locationName).officeItems == openOffice.items
      ensures Moved(locationName).breakRoomItems == breakRoom.items
      ensures Moved(locationName).serverRoomItems == serverRoom.items
      ensures Moved(locationName).player == Snapshot().player
      ensures Moved(locationName).over == gameOver
    {
    }

    /** The commands that only print change nothing. */
    lemma NarrationChangesNothing(c: Command)
      requires Valid() && OnlyNarrates(c)
      ensures Next(c) == Snapshot()
    {
    }

    /** No command brings a finished game back. */
    lemma OverStaysOver(c: Command)
      requires Valid() && gameOver
      ensures Next(c).over
    {
      match c {
        case Attack(targetName) =>
          var i := FindOpponent(currentLocation.characters, player, targetName);
          if i != -1 {
            StrikeBack(currentLocation.characters[i]);
          }
        case _ =>
      }
    }

    /** A line read as the `coffee` command (such as "coffee", see
        `CoffeeParse` and `Dispatch`) on a running game gives +20 health and
        +3 attack power and changes nothing else. */
    lemma CoffeeLine(rawInput: string)
      requires Valid() && !gameOver
      requires ParseLine(rawInput).Some? && Interpret(ParseLine(rawInput).value) == Coffee
      ensures !AllWhitespace(rawInput)
      ensures AfterLine(rawInput)
              == Snapshot().(player := Stats(player.health + 20, player.attackPower + 3, player.inventory),
                             over := player.health + 20 <= 0)
    {
    }

    /** A line read as the `look` command (such as "look", see `LookParse`
        and `Dispatch`) on a running game with a living player changes
        nothing: in particular it does not end the game. */
    lemma LookLine(rawInput: string)
      requires Valid() && !gameOver && player.IsAlive()
      requires ParseLine(rawInput).Some? && Interpret(ParseLine(rawInput).value) == Look
      ensures !AllWhitespace(rawInput)
      ensures AfterLine(rawInput) == Snapshot()
    {
    }

    /** Ends the session; disabling the input is not modelled. */
    method EndGame()
      modifies this`gameOver
      ensures gameOver
    {
      gameOver := true;
    }

    /** The game is won by defeating the Espresso Demon or by holding the
        Sacred Espresso Shot itself (that object, not any item of that
        name). */
    method CheckForWin(defeatedEnemy: Character?)
      modifies this`gameOver
      ensures gameOver == (old(gameOver) || defeatedEnemy == espressoDemon || sacredEspresso in player.inventory)
    {
      if defeatedEnemy == espressoDemon {
        EndGame();
        return;
      }
      var hasEspresso := sacredEspresso in player.inventory;
      if hasEspresso {
        EndGame();
      }
    }

    /** Moves the first floor item named `itemName` (ignoring case) into
        the player's inventory, then checks for a win. No item is created
        or lost. */
    method PickupItem(itemName: string)
      requires Valid()
      modifies currentLocation`items, player`inventory, this`gameOver
      ensures multiset(currentLocation.items) + multiset(player.inventory)
              == old(multiset(currentLocation.items) + multiset(player.inventory))
      ensures Snapshot() == old(PickedUp(itemName))
    {
      var index := FindName(ItemNames(currentLocation.items), itemName);
      if index == -1 {
        return;
      }
      var item := currentLocation.items[index];
      ghost var before := Snapshot();
      currentLocation.items := RemoveAt(currentLocation.items, index);
      player.PickUpItem(item);
      assert Snapshot() == WithItems(before, currentLocation, currentLocation.items).(player := Snapshot().player);
      CheckForWin(null);
    }

    /** `attackTarget(targetName)`: one exchange of blows with the first
        living non-player here of that name; with none, nothing changes. */
    method AttackTarget(targetName: string)
      requires Valid()
      modifies this`gameOver, player`health, intern`health, salesGuy`health, espressoDemon`health
      ensures Snapshot() == old(Attacked(targetName))
    {
      var i := FindOpponent(currentLocation.characters, player, targetName);
      if i == -1 {
        return;
      }
      var enemy := currentLocation.characters[i];
      Exchange(enemy);
    }

    /** The player strikes `enemy`; a survivor strikes back. */
    method Exchange(enemy: Character)
      requires Distinct() && enemy in Chars() && enemy != player
      modifies this`gameOver, player`health, enemy`health
      ensures Snapshot() == old(Struck(enemy))
    {
      player.Attack(enemy);
      if !enemy.IsAlive() {
        CheckForWin(enemy);
        return;
      }
      enemy.Attack(player);
      if !player.IsAlive() {
        EndGame();
      }
    }

    /** The undocumented `coffee` command: +20 health and +3 attack power,
        unless the game is over. */
    method SecretCaffeineBoost()
      requires Valid()
      modifies player`health, player`attackPower
      ensures old(gameOver) ==> player.health == old(player.health) && player.attackPower == old(player.attackPower)
      ensures !old(gameOver) ==> player.health == old(player.health) + 20
                                 && player.attackPower == old(player.attackPower) + 3
      ensures Snapshot() == old(Boosted())
    {
      if gameOver {
        return;
      }
      player.health := player.health + 20;
      player.attackPower := player.attackPower + 3;
    }

    /** The `move`/`go` case: look the exit up from the current room and,
        if that leads somewhere else, go there and record the player among
        its characters unless already listed. The player is never removed
        from the room left behind. */
    method Go(locationName: string)
      requires Valid()
      modifies this`currentLocation, openOffice`characters, breakRoom`characters, serverRoom`characters
      ensures Valid()
      ensures multiset(currentLocation.characters)[player] == 1
      ensures Snapshot() == old(Moved(locationName))
    {
      var newLoc := currentLocation.Move(locationName);
      assert newLoc in Locs();
      if newLoc != currentLocation {
        Enter(newLoc);
      }
      NoDupOccursOnce(currentLocation.characters, player);
    }

    /** Makes `dest` the current room and records the player among its
        characters unless already listed. */
    method Enter(dest: Location)
      requires Valid() && dest in Locs()
      modifies this`currentLocation, dest`characters
      ensures Valid()
      ensures currentLocation == dest && dest.characters == AddIfAbsent(old(dest.characters), player)
      ensures Snapshot() == old(WithCharacters(Snapshot(), dest, AddIfAbsent(dest.characters, player))).(current := dest)
    {
      currentLocation := dest;
      AdmitPlayer(dest.characters, dest.connectedLocations);
      if player !in dest.characters {
        dest.characters := dest.characters + [player];
      }
    }

    /** One line of input. A finished session ignores it, and so does a
        blank line; otherwise the line is parsed and performed, and a player
        left at zero health then ends the session. Either way the session
        stays valid, and once over it stays over. */
    method HandleCommand(rawInput: string)
      requires Valid()
      modifies this`currentLocation, this`gameOver
      modifies openOffice`characters, breakRoom`characters, serverRoom`characters
      modifies openOffice`items, breakRoom`items, serverRoom`items
      modifies player`health, player`attackPower, player`inventory
      modifies intern`health, salesGuy`health, espressoDemon`health
      ensures Valid()
      ensures old(gameOver) ==> gameOver
      ensures old(gameOver) || AllWhitespace(rawInput) ==> Snapshot() == old(Snapshot())
      ensures !old(gameOver) && !AllWhitespace(rawInput) ==> Snapshot() == old(AfterLine(rawInput))
      ensures !AllWhitespace(rawInput) ==> gameOver || player.IsAlive()
    {
      if gameOver {
        return;
      }
      var parsed := ParseLine(rawInput);
      if parsed.None? {
        return;
      }
      Perform(Interpret(parsed.value));

      // the closing check: a player at zero health ends the session
      if !player.IsAlive() && !gameOver {
        EndGame();
      }
    }

    /** The `switch` of `handleCommand` on a running session: each command
        goes to its own operation, and the world becomes `Next(c)`. */
    method Perform(c: Command)
      requires Valid() && !gameOver
      modifies this`currentLocation, this`gameOver
      modifies openOffice`characters, breakRoom`characters, serverRoom`characters
      modifies openOffice`items, breakRoom`items, serverRoom`items
      modifies player`health, player`attackPower, player`inventory
      modifies intern`health, salesGuy`health, espressoDemon`health
      ensures Valid()
      ensures Snapshot() == old(Next(c))
    {
      if OnlyNarrates(c) {
        return;
      }
      match c {
        case Pickup(itemName) => PickupItem(itemName);
        case Use(itemName) => player.UseItem(itemName);
        case Attack(targetName) => AttackTarget(targetName);
        case MoveTo(locationName) => Go(locationName);
        case Coffee => SecretCaffeineBoost();
        case Quit => EndGame();
      }
    }
  }
}
