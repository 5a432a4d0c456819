# Caffeine Quest, modelled in Dafny

Caffeine Quest is a browser text adventure. An exhausted developer crosses an
office of three rooms: the Open Office, the Break Room and the Server Room.
Along the way they fight an unpaid intern, a bitter sales guy and the
Espresso Demon, and they pick up and use a cold coffee, a motivational mug
and the Sacred Espresso Shot. Each typed line goes to `handleCommand`, which
parses it into a verb and an argument and dispatches on the verb.

This project models the in-memory game in `app.js`, in the same shape:

- **Classes whose fields change in place.**
  - `Character`: health, attack power and an inventory.
  - `Location`: characters, items and connected locations.
  - `Session`: the module-level world. It holds the current location and
    the game-over flag.
- **Items.** An `Item` is an object with constant fields, so two items are
  equal only if they are the same object. The win check relies on this: it
  compares the player's inventory against the Sacred Espresso object
  itself.
- **Pure code as functions.** The line parser (trim, split on `" "`,
  lower-case the verb, rejoin the argument), the case-insensitive
  first-match lookups and the verb table are datatypes and functions.

The modules follow the program's layers:

- `Text`: trim, lower-case, split/join, name lookup.
- `Lists`: `splice(i, 1)` and the guarded `push`.
- `Entities`: `Item`, `Character`, `Location`.
- `Commands`: parsing and the verb table.
- `Game`: world setup, the gameplay functions and `handleCommand`.

Each method that changes state is proved against a value-level
specification:

- `Character.UseItem` against `Used`;
- `Character.TakeDamage` and `Character.Attack` against `Damaged`;
- the session's operations against a `World` value. `Snapshot()` reads
  everything a command can change off the objects: the current room, the
  game-over flag, each room's characters and floor items, the player's
  health, attack power and inventory, and the other characters' health.
  `PickedUp`, `Struck`, `Attacked`, `Moved`, `Boosted`, `Next` and
  `AfterLine` compute the world after each operation, and each method
  ensures that the new snapshot is that world computed on the old state.
  Its `modifies` clause lists fields, so everything outside it provably
  stays as it was.

The properties are lemmas about those specifications. The session
invariant `Valid` is kept by every command. It says:

- the world's characters are distinct objects, and so are its rooms;
- the current room is one of the three rooms and lists the player;
- no room lists a character twice;
- every exit leads to a room that has an exit back.

## Model

| member | source | states |
|---|---|---|
| Text.TrimStart | app.js:445 | the result is a suffix of the input, everything dropped is white space, and the result does not start with white space |
| Text.TrimEnd | app.js:445 | the result is a prefix of the input, everything dropped is white space, and the result does not end with white space |
| Text.Trim | app.js:445 | `trim()` returns a contiguous slice of the input with only white space around it and none at either of its own ends |
| Text.TrimEmpty | app.js:445-446 | the trimmed line is empty exactly when the raw line is all white space, which is the `if (!input) return` test |
| Text.LowerChar | app.js:451 | an ASCII capital becomes the lower-case letter 32 code points later, every other character is kept, and no capital remains |
| Text.Lower | app.js:451 | `toLowerCase()` keeps the length and lower-cases each character on its own |
| Text.SameNameIgnoresCase | app.js:84-86 | the comparison `a.toLowerCase() === b.toLowerCase()` holds exactly when the names have the same length and agree at every position up to ASCII case (the same test at app.js:181, 276, 294 and 327) |
| Text.FindName | app.js:84-86 | `_.findIndex` by case-insensitive name: -1 exactly when no name matches, otherwise the index of a match with no match before it |
| Text.Split | app.js:450 | `split(" ")` yields at least one piece, and no piece contains the separator |
| Text.JoinSplit | app.js:450-452 | joining the pieces of a split with the same separator gives back the string |
| Text.SplitJoin | app.js:452 | `join(" ")` of pieces without a space can be split back into the same pieces, so `Join` loses nothing |
| Text.SplitAfter | app.js:450 | a split cuts at the first separator: the text before it is the first piece, and the rest is split on its own |
| Text.SplitNoSep | app.js:450 | a string with no separator splits into itself alone |
| Text.SplitAtFirst | app.js:450-452 | a split has one piece exactly when there is no separator; otherwise the first piece is the text before the first separator and the remaining pieces rejoin to the text after it |
| Lists.RemoveAt | app.js:101 | `splice(i, 1)` keeps the elements before `i`, shifts the ones after it down by one, and removes exactly one occurrence of the element at `i` |
| Lists.AddIfAbsent | app.js:131-136 | after an `includes` check and a `push`, the element is present, the old list is an unchanged prefix, and the list grew only if the element was absent |
| Lists.AddIfAbsentNoDup | app.js:131-136 | a guarded push never creates a duplicate |
| Lists.AddIfAbsentIdempotent | app.js:129-137 | repeating a guarded push changes nothing, so a second identical `connect` is a no-op |
| Lists.NoDupOccursOnce | app.js:513-516 | in a list without duplicates, an element that is present occurs exactly once |
| Entities.Item.constructor | app.js:35-39 | an item gets exactly the given name, type and value |
| Entities.Damaged | app.js:56-58 | health after damage is `max(0, health - amount)`, and so never negative |
| Entities.AliveAfterDamage | app.js:114-116 | after damage a character is alive (health > 0) exactly when its health exceeded the damage |
| Entities.UseOnlyConsumes | app.js:83-111 | `Used`, the value-level `useItem`, never adds to the inventory and removes at most one entry |
| Entities.FindNameFirst | app.js:84-86 | the lookup finds precisely the first inventory entry whose name matches ignoring case |
| Entities.UseMissing | app.js:84-91 | using a name that matches nothing in the inventory changes nothing |
| Entities.UseHealing | app.js:95-101 | a healing item raises health by exactly its value, leaves attack power alone, and removes only the first match, keeping the other entries in order |
| Entities.UseWeapon | app.js:102-108 | a weapon raises attack power by its value and leaves health and the inventory unchanged |
| Entities.UseWeaponTwice | app.js:102-108 | since the weapon stays in the inventory, using it twice raises attack power by twice its value |
| Entities.UseOther | app.js:109-111 | an item of any other type changes nothing |
| Entities.Character.constructor | app.js:43-48 | a character starts with the given name, health and attack power, and an empty inventory |
| Entities.Character.Attack | app.js:50-54 | the target's health becomes `Damaged(old health, attacker's attack power)`, and nothing else changes |
| Entities.Character.TakeDamage | app.js:56-58 | health becomes `max(0, old health - amount)` |
| Entities.Character.PickUpItem | app.js:65-66 | the item is appended to the inventory |
| Entities.Character.UseItem | app.js:83-111 | the new health, attack power and inventory are exactly `Used(old state, itemName)` |
| Entities.FindOpponent | app.js:290-296 | `_.find` for an attack target: -1 exactly when no living non-player character here has the name (ignoring case), otherwise the first such one |
| Entities.Location.constructor | app.js:121-127 | a location starts with its name and with no characters, items or exits |
| Entities.Location.Connect | app.js:129-137 | each side's exits become the guarded push of the other side, so the link goes both ways and is never duplicated |
| Entities.Location.Move | app.js:179-192 | the first exit whose name matches ignoring case, or this location itself when none matches; nothing is changed |
| Commands.SplitAtFirstSpace | app.js:450-452 | the first piece of a split on spaces is the text before the first space, and the other pieces rejoin to the text after it |
| Commands.ParseLine | app.js:444-452 | no command exactly for a blank line; otherwise the verb is the lower-cased text before the first space of the trimmed line, and the argument is the text after it, or "" when there is no space |
| Commands.PiecesReassemble | app.js:450-452 | first piece + " " + the rejoined rest gives back the line whenever the rest is non-empty |
| Commands.ParseReassembles | app.js:445-452 | the verb is the lower-cased first token, which holds no space, and token + " " + a non-empty argument is the trimmed line |
| Commands.EmptyRestEndsInSpace | app.js:450-452 | several pieces whose tail rejoins to "" mean the line ends in a space |
| Commands.ParseSingleToken | app.js:445-452 | an empty argument means the trimmed line is a single token, since a trimmed line cannot end in a space |
| Commands.ParseBareWord | app.js:445-452 | a line that is one word of lower-case letters parses as that verb with an empty argument |
| Commands.CoffeeParse | app.js:445-452 | the line "coffee" parses as the verb `coffee` with no argument |
| Commands.LookParse | app.js:445-452 | the line "look" parses as the verb `look` with no argument |
| Commands.Interpret | app.js:454-541 | the `switch`: a verb that needs an argument and has none gives a prompt; each command comes from its own verbs (`coffee` only from "coffee", `quit` only from "quit" or "exit") and carries the parsed argument where it takes one |
| Commands.Dispatch | app.js:454-535 | conversely, each of the fifteen verbs, given an argument where it needs one, yields its own command: help, look, search, inventory and stats included (`pick`/`pickup`, `move`/`go` and `quit`/`exit` are synonyms) |
| Commands.UnknownVerb | app.js:538-540 | a line is not understood exactly when its verb is outside the table |
| Game.MakeItems | app.js:203-205 | the three items with their names, types and values (10, 2, 0) |
| Game.MakeCast | app.js:212-215 | four distinct new characters with their names, health and attack power (25/4, 15/0, 16/3, 28/6) and empty inventories |
| Game.MakeRooms | app.js:218-235 | three distinct new rooms named Open Office, Break Room and Server Room, with the exits Open Office–Break Room and Break Room–Server Room, each listed in both directions |
| Game.Furnish | app.js:238-245 | an empty room receives exactly the given characters and items |
| Game.Session.constructor | app.js:203-251 | the world as the page loads it: new rooms and characters; every item's name, type and value; every character's name, health, attack power and empty inventory; the room names, occupants, floor items and exits; play in the Open Office; the game not over; the session invariant |
| Game.Session.StartIsValid | app.js:218-248 | the initial world satisfies the session invariant |
| Game.Session.AdmitPlayer | app.js:513-516 | recording the player in a well-formed room keeps it well formed |
| Game.Session.PickupMissing | app.js:274-282 | picking up a name that matches no floor item changes nothing |
| Game.Session.PickupEspressoWins | app.js:274-287 | picking up the Sacred Espresso Shot ends the game |
| Game.Session.StrikeBack | app.js:302-318 | the target loses the player's attack power, down to 0 at most. At 0 it strikes no blow back, so the player is unchanged. Otherwise the player loses the target's attack power, and the game is over if that leaves the player at 0. No other character, room or item changes, and a finished game stays finished |
| Game.Session.MoveNowhere | app.js:504-518 | `move`/`go` to a name that is no exit of the current room changes nothing |
| Game.Session.MovedRooms | app.js:504-518 | the current room becomes `Move`'s answer. A new room gets the player appended unless already listed. Every other room keeps its characters, so the player is not removed from the room left behind |
| Game.Session.MoveKeepsRest | app.js:504-518 | `move`/`go` changes no floor item, not the player's statistics and not the game-over flag |
| Game.Session.NarrationChangesNothing | app.js:454-541 | help, look, search, inventory, talk, stats, a missing argument and an unknown verb change nothing |
| Game.Session.OverStaysOver | app.js:454-546 | no command turns a finished game back into a running one |
| Game.Session.CoffeeLine | app.js:439-547 | a line read as `coffee` on a running game raises health by 20 and attack power by 3 and changes nothing else; the game ends only if health is still at most 0 |
| Game.Session.LookLine | app.js:439-547 | a line read as `look` on a running game with a living player changes nothing and does not end the game |
| Game.Session.EndGame | app.js:432-437 | `endGame` sets the game-over flag |
| Game.Session.CheckForWin | app.js:365-389 | the game becomes over exactly if it already was, the defeated enemy is the Espresso Demon, or the inventory holds the Sacred Espresso object itself |
| Game.Session.PickupItem | app.js:274-287 | the new world is `PickedUp`: with no match nothing changes; otherwise the first match leaves the floor through `splice`, is appended to the inventory, and the game is over if the Sacred Espresso is now held. Floor plus inventory is conserved as a multiset |
| Game.Session.AttackTarget | app.js:289-319 | the new world is `Attacked`: with no living non-player target of that name nothing changes, otherwise one exchange as in `Struck` |
| Game.Session.Exchange | app.js:302-318 | the new world is `Struck(enemy)`, whose properties `StrikeBack` states |
| Game.Session.SecretCaffeineBoost | app.js:393-414 | on a running game, exactly +20 health and +3 attack power; on a finished one, nothing; nothing else changes |
| Game.Session.Go | app.js:504-518 | the new world is `Moved`, whose properties `MoveNowhere`, `MovedRooms` and `MoveKeepsRest` state; the player appears exactly once in the current room, and the invariant is kept |
| Game.Session.Enter | app.js:511-517 | the destination becomes current and gets the player appended unless already listed; no other room's characters change; the invariant is kept |
| Game.Session.HandleCommand | app.js:439-547 | a finished game or a blank line changes nothing at all. Otherwise the new world is `AfterLine`: the parsed line's command is performed as `Next` says, and the game is over if the player is then at 0 or below. The invariant is kept, game over is one-way, and after any non-blank line either the game is over or the player is alive |
| Game.Session.Perform | app.js:454-541 | the new world is `Next(c)`: `pickup` as `PickedUp`, `use` as `Used` on the player, `attack` as `Attacked`, `move`/`go` as `Moved`, `coffee` as `Boosted`, `quit` sets only the game-over flag, and every other command changes nothing; the invariant is kept |

## Left out

- Output: logging to the page, the narration strings, `logLine`, `logMultiline` and `logSeparator`. Every message is a side effect on the DOM, so the model has no output.
- The location description. It is used only in narration.
- Browser wiring: `disableInput`, the button and keyboard listeners, `intro` and focus handling. The game-over flag is all of `endGame` that the model keeps.
- Message-only handlers: `showHelp`, `viewInventory`, `searchLocation`, the text of `enterLocation`, the dialogue of `talkTo` and `showDebugStats`. The only statement about them is that they change no state (`Game.Session.NarrationChangesNothing`).
- Full Unicode `toLowerCase`. `Text.Lower` folds only ASCII `A`–`Z`.
- lodash. `_.findIndex`, `_.find` and `_.some` are replaced by the specified searches `Text.FindName`, `Entities.FindOpponent` and sequence membership.
- Item type. The `type` string is modelled as the datatype `Kind`: `healing`, `weapon`, or any other string.
- Numbers. JavaScript numbers are IEEE doubles; the model uses unbounded integers. Every value in the game is a small integer, so the two agree unless health or attack power is raised (by `coffee` or a weapon) past 2^53.
- Game.Session.Valid: the invariant does not include "health is never negative". `useItem` adds an item's value to health as it stands, so an item with a negative value could break it. Non-negative health is stated per operation instead, through `Damaged`.
- Entities.Character.IsAlive: defined directly as `health > 0`, with no contract of its own. Its meaning after damage is `Entities.AliveAfterDamage`.
