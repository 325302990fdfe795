# BachelorParty domain model in Dafny

BachelorParty is a Next.js app that tracks players' balances across a
weekend of games. Players wager on games. Completing a game pays the pot to
the winner, or shares it among the winning team, and debits every loser.
Side bets move money between two players. Leaderboards rank players by
balance or winnings.

This project models the app's domain logic and proves properties of it.

Money is an integer, except in the settlement of a completed game. There a
balance is a `real`, because a team's pot is divided among the winning
players.

Database tables and lists are sequences of rows. A row update by id (the
client's `update(...).eq("id", id)`) is a function that rewrites every row
with that id. The app's loops over those updates are methods whose
postconditions tie them to specification functions. Lemmas state what the
specification functions promise.

Modules, one per source file:

- `Common`: options and JavaScript's truthiness of an optional string. It
  also holds the list primitives the components use: `some`, `find` (with
  `FirstIndex`, the position `find` stops at) and `filter` by a key.
- `CompleteGame` (components/complete-game.tsx):
  - grouping a game's participants into teams, as a loop method proved
    against specification functions;
  - settling an individual game or a team game, as loop methods over the
    "players" rows;
  - `completeGame` as a whole: its guards, the winner lookup, the history
    entry and the dialog reset.
- `SideBets` (components/side-bets.tsx): `handleSideBet`, its chain of
  guards and its two balance writes.
- `Realtime`: the change-feed reducer that components/playerbalances.tsx
  and components/side-bets.tsx share.
- `PlayerBalances` (components/playerbalances.tsx): the progress-bar
  maximum.
- `CreateGame` (components/create-game.tsx): the selection toggles, the
  wager updates, and `createGame` with its guards and its loop of
  participant rows.
- `Teams` (components/teams.tsx): adding and removing team members, and
  `createTeam`.
- `PlayerManager` (components/player-manager.tsx): `addPlayer`. It models
  JavaScript's `trim` and the decimal `toString` of the new id.
- `Store` (lib/store.ts) and `AppStore` (app/lib/lib/store.ts): the client
  store's actions and the sixteen-player seed.
- `Ranking`: a stable descending sort by key and the `slice(0, n)` prefix,
  shared by the leaderboards.
- `Leaderboard` (components/leaderboard.tsx): derived winnings, an in-place
  insertion sort on an `array`, the rank badges and the signed winnings.
- `AppLeaderboard` (app/components/leaderboard.tsx): the top five by total
  winnings.
- `AppPlayerBalances` (app/components/player-balances.tsx): the list sorted
  by balance and its colour classes.

## Model

| member | source | states |
|---|---|---|
| Common.CountKey | lib/store.ts:24-30 | The number of players an update by id touches: at most the length, and zero exactly when no player has that id. |
| Common.FirstIndex | components/side-bets.tsx:105-106 | `find`'s position is None exactly when no entry has the key. Otherwise it is an entry with the key, and no earlier entry has it. |
| Common.FindFirst | lib/store.ts:44-49 | `find` returns None exactly when no entry matches. Otherwise it returns the first entry with the key. |
| Common.Without | components/side-bets.tsx:76 | `filter(x => key(x) !== k)` keeps every other entry and drops exactly the entries with key `k`. Its length falls by their count, and no entry with `k` remains. |
| Common.WithoutMultiset | components/side-bets.tsx:76 | Every entry without key `k` survives the filter exactly as often as it occurs, and every entry with key `k` is gone. With WithoutAppend, which keeps the order, this fixes the result as the filter's. |
| Common.WithoutAppend | components/complete-game.tsx:170 | Filtering a concatenation filters each part. |
| Common.WithoutAbsent | components/create-game.tsx:138-152 | Filtering out an id that is not there changes nothing. |
| Common.HasKeyAppend | components/create-game.tsx:149-151 | An id occurs in a concatenation exactly when it occurs in one of the parts. |
| Common.WithoutDistinct | components/complete-game.tsx:211 | Filtering keeps keys unique. |
| Common.CountKeyDistinct | components/complete-game.tsx:205-211 | With unique keys, a key occurs once if present and zero times otherwise. |
| CompleteGame.TeamIdsDistinct | components/complete-game.tsx:111-118 | The grouping opens each team id only once. |
| CompleteGame.Unseen | components/complete-game.tsx:111-118 | A team id not seen yet has the entry opened on first sight: named "Team " + id, no players, total wager 0. |
| CompleteGame.GroupStep | components/complete-game.tsx:109-124 | A participant without a team id changes nothing. Otherwise its team is appended on first sight, gains the participant as its last member and takes the participant's wager. Every other team is unchanged. |
| CompleteGame.TeamIdsListed | components/complete-game.tsx:110-118 | A team is listed exactly when some participant carries its non-empty id. |
| CompleteGame.MembersExactly | components/complete-game.tsx:120-121 | A participant is in team t's list exactly when it is a participant carrying id t. So players without a team id are in no list, and each player is in its own team's list only. |
| CompleteGame.MembersInOrder | components/complete-game.tsx:121 | A team's members appear in input order, at strictly increasing input positions. |
| CompleteGame.LastWagerIsLast | components/complete-game.tsx:122 | A team's total wager is the wager of its last participant in input order. |
| CompleteGame.TeamIdsFirstAppearance | components/complete-game.tsx:126 | Teams come out in first-appearance order: whoever introduces an earlier team precedes every member of a later one. |
| CompleteGame.GroupTeams | components/complete-game.tsx:105-126 | The loop over a `Map` yields one entry per team id in first-appearance order. Each entry equals the specification `Team`, about which the lemmas above state the properties. |
| CompleteGame.AdjustTotal | components/complete-game.tsx:217-224 | An update by id moves the table's total by the delta, once per row carrying the id. |
| CompleteGame.DebitAllAt | components/complete-game.tsx:227-235 | After the loser updates, each row has paid its player's wagers and counts one more game per entry. Ids and names are unchanged. |
| CompleteGame.CreditAllAt | components/complete-game.tsx:180-189 | After the winner updates, each row has gained the share, one game won and one game played per entry of its player. |
| CompleteGame.DebitTeamsFlat | components/complete-game.tsx:192-202 | Debiting team by team, player by player, is the same as debiting all losing players in order. |
| CompleteGame.DebitAllTotal | components/complete-game.tsx:227-235 | With one row per id and every loser present, the loser updates lower the total by exactly the losers' wagers. |
| CompleteGame.CreditAllTotal | components/complete-game.tsx:180-189 | With one row per id and every winner present, the winner updates raise the total by the share once per winner. |
| CompleteGame.ShareTimesSize | components/complete-game.tsx:177 | For a non-empty winning team, the per-player shares add up to exactly the pot. |
| CompleteGame.IndividualPot | components/complete-game.tsx:211-212 | The individual pot plus the winner's own wagers equals everything wagered. |
| CompleteGame.WithoutStakeSplit | components/complete-game.tsx:211-212 | Leaving one player's entries out of the wager sum leaves out exactly that player's stake. |
| CompleteGame.TeamPot | components/complete-game.tsx:170-171 | The pot of a team game: each losing team's `totalWager` times its number of players. FlattenLosing states that this equals the losers' own wagers when team-mates wager alike, and UnequalTeamWagersCreateMoney shows that it does not otherwise. |
| CompleteGame.Share | components/complete-game.tsx:177 | The share times the winning team's size gives back the pot; a team with no players gets a share of 0. |
| CompleteGame.SettleIndividual | components/complete-game.tsx:204-235 | The table after an individual game: the winner credited the pot, then each other participant debited. IndividualSettlementAt states its effect on each row, and IndividualSettlementConserves states that the total is conserved. |
| CompleteGame.SettleTeams | components/complete-game.tsx:164-202 | The table after a team game: each winning player credited the share, then each losing team's players debited. TeamSettlementAt and TeamSettlementForPlayer state its effect on each row. |
| CompleteGame.StakeDistinct | components/complete-game.tsx:231 | With one entry per player, a player's stake is that entry's wager. |
| CompleteGame.StakeAbsent | components/complete-game.tsx:227-235 | A player who did not take part pays nothing. |
| CompleteGame.SumWagersAppend | components/complete-game.tsx:211-212 | Wagers add up over a concatenation. |
| CompleteGame.UniformWagers | components/complete-game.tsx:171 | Players who all wagered w wager w times their number in total. |
| CompleteGame.DebitAllAppend | components/complete-game.tsx:192-202 | Debiting two groups of losers is debiting the first, then the second. |
| CompleteGame.FlattenLosing | components/complete-game.tsx:171 | If every losing player wagered the team's total wager, the losers' wagers add up to the pot computed as `totalWager * players.length`. |
| CompleteGame.IndividualSettlementConserves | components/complete-game.tsx:217-235 | An individual game leaves the total balance unchanged, given one row per player and every participant's row present. |
| CompleteGame.TeamSettlementConserves | components/complete-game.tsx:177-202 | A team game leaves the total balance unchanged when every losing player wagered their team's total wager and the winning team is non-empty. |
| CompleteGame.IndividualSettlementAt | components/complete-game.tsx:217-235 | Row by row, each player taking part once: the winner gains the pot and one win. Every participant plays one more game. Each loser pays their own wager. Non-participants are untouched. |
| CompleteGame.TeamSettlementAt | components/complete-game.tsx:179-202 | Row by row: a row gains the share per winning entry and pays its wagers among the losers. It plays one game per entry and wins one per winning entry. |
| CompleteGame.TeamSettlementForPlayer | components/complete-game.tsx:179-202 | Each player taking part once: a winner gains the share, one game won and one played. A loser pays their own wager and plays once. Anyone else is untouched. |
| CompleteGame.UnequalTeamWagersCreateMoney | components/complete-game.tsx:122 | If team-mates wager 10 and 30, the grouped team's total wager is 30. Settling against that team adds 20 to the total balance. |
| CompleteGame.ExampleGrouping | components/complete-game.tsx:109-124 | The grouping of the three participants of that example: "x" holds one player with wager 10, and "y" holds two with total wager 30. |
| CompleteGame.ExampleSettlement | components/complete-game.tsx:169-202 | Settling that example: a pot of 60 is credited, 40 is debited, and the total rises by 20. |
| CompleteGame.PayIndividual | components/complete-game.tsx:204-235 | The winner's update then the loop over losers yields `SettleIndividual`. The total balance is conserved under the hypotheses above. |
| CompleteGame.PayTeams | components/complete-game.tsx:164-202 | The winners' loop then the nested losers' loop yields `SettleTeams` with the teams other than the winner as the losing teams. |
| CompleteGame.LoadGamePlayers | components/complete-game.tsx:93-129 | The dialog keeps the fetched participants. A team game gets exactly the grouping `GroupTeams` builds; any other game gets no teams. |
| CompleteGame.Participants | components/complete-game.tsx:174 | The history's participant list: one name per participant, in order. |
| CompleteGame.MarkCompleted | components/complete-game.tsx:155 | Exactly the games with the id get status "completed"; every other field and game is unchanged. |
| CompleteGame.Complete | components/complete-game.tsx:132-279 | Without a game or a winner, the only result is "missing information". An unknown winner throws, and the rollback changes nothing. Otherwise the game is marked completed and the balances are settled. The history gains one entry with the winner's name, the pot and the participants' names. The dialog is reset. |
| SideBets.SetBalance | components/side-bets.tsx:120-123 | The rows with the id take the new balance. All other rows, and every id and name, are unchanged. |
| SideBets.SetBalanceTotal | components/side-bets.tsx:120-123 | With unique ids, setting one present row's balance moves the total by the difference. |
| SideBets.SetBalanceAbsent | components/side-bets.tsx:120-123 | Writing the balance of an unknown id changes nothing. |
| SideBets.Transfer | components/side-bets.tsx:119-130 | The two writes keep every row's id and name and leave every player other than the two untouched. TransferEffect states what they do to the two balances and to the total. |
| SideBets.TwoWrites | components/side-bets.tsx:119-130 | With unique ids, the two writes move the total by both differences and touch only the two rows. |
| SideBets.TransferEffect | components/side-bets.tsx:119-130 | Between two different players with unique ids: the payer loses exactly the amount, the payee gains it, and the total is conserved. |
| SideBets.PlacedFacts | components/side-bets.tsx:113-130 | An affordable bet's two writes settle it. Only the two players change. The payer stays at or above zero. |
| SideBets.HandleSideBet | components/side-bets.tsx:87-149 | Each rejection holds exactly when its guard is the first to fail: missing player, same player, non-positive amount, unknown player, insufficient balance. A rejection changes nothing. A placed bet resets the form and settles the two balances. |
| Realtime.ReplaceById | components/playerbalances.tsx:58-61 | UPDATE replaces exactly the rows with the payload's id and leaves the others alone. |
| Realtime.Apply | components/playerbalances.tsx:55-65 | INSERT appends one row. UPDATE is ReplaceById: it keeps length, order and ids, turns the matching rows into the payload, and leaves the list unchanged when the id is absent. DELETE is the filter Without: exactly the rows with the old id go, and the others stay in order. Other events change nothing. |
| Realtime.ApplyKeepsDistinct | components/side-bets.tsx:68-78 | Ids stay unique under every event, provided an INSERT brings a new id. |
| Realtime.InsertThenDelete | components/playerbalances.tsx:56-64 | Inserting a row with a new id and then deleting that id restores the list. |
| Realtime.UpdateIdempotent | components/playerbalances.tsx:58-61 | Applying the same UPDATE twice is the same as applying it once. |
| PlayerBalances.MaxBalance | components/playerbalances.tsx:21 | The maximum is at least 300 and at least every balance. It is 300 or some player's balance. |
| PlayerBalances.Progress | components/playerbalances.tsx:106 | A bar is between 0 and 100 for a balance between 0 and the maximum, and exactly 100 at the maximum. |
| PlayerBalances.ProgressAtMost100 | components/playerbalances.tsx:106 | No progress bar exceeds 100. |
| PlayerBalances.RatioAtMostOne | components/playerbalances.tsx:106 | A balance no larger than a positive maximum is at most 100 per cent of it. |
| PlayerBalances.MaxBalanceAfterInsert | components/playerbalances.tsx:21 | After an INSERT the maximum is the larger of the old maximum and the new balance. |
| CreateGame.Toggle | components/create-game.tsx:138-152 | A selected id is filtered out. An unselected id is appended with wager 0. |
| CreateGame.ToggleFlips | components/create-game.tsx:138-152 | Toggling flips the id's membership and leaves every other id's membership unchanged. |
| CreateGame.ToggleKeepsDistinct | components/create-game.tsx:138-152 | Toggling keeps selected ids unique. |
| CreateGame.ToggleTwice | components/create-game.tsx:138-152 | Toggling an unselected id twice restores the selection. |
| CreateGame.UpdateWager | components/create-game.tsx:154-160 | Length, order and ids are kept. Entries with the id take the new wager; the others keep theirs. |
| CreateGame.UpdateWagerKeepsSelection | components/create-game.tsx:154-160 | Changing a wager never changes which ids are selected, or their uniqueness. |
| CreateGame.ResetForm | components/create-game.tsx:246-251 | The reset form has no game type, is not a team game, and has no players or teams selected. |
| CreateGame.CreateGame | components/create-game.tsx:162-244 | Each rejection holds exactly when its guard is the first to fail: no game type, fewer than 2 teams in a team game, fewer than 2 players otherwise, failed insert. A rejection leaves the form unchanged. Success inserts the game "in_progress" with one participant row per selected entry, in order and with its wager, and resets the form. |
| Teams.AddPlayer | components/teams.tsx:103-106 | The id is afterwards chosen and nothing else is added. An id already chosen is ignored; a new one is appended. |
| Teams.RemovePlayer | components/teams.tsx:108-110 | The id is gone, and every other chosen id stays exactly as often as before. It is the order-preserving filter Without. |
| Teams.RemovePlayerAppend | components/teams.tsx:108-110 | Removing from a list built in two parts removes from each part, so the remaining ids keep their order. |
| Teams.AddPlayerKeepsDistinct | components/teams.tsx:103-106 | Adding is idempotent and keeps the chosen ids unique. |
| Teams.RemoveAfterAdd | components/teams.tsx:103-110 | Removing a player just added restores the earlier choice, order included. |
| Teams.RemovePlayerKeepsDistinct | components/teams.tsx:108-110 | Removing keeps the chosen ids unique. |
| Teams.CreateTeam | components/teams.tsx:64-101 | A form without a name or with fewer than two players is refused. A failed insert changes nothing. Otherwise the team is stored with no wins or losses, and the form is cleared. |
| PlayerManager.TrimStart | components/player-manager.tsx:18 | Exactly the leading white space is dropped. |
| PlayerManager.TrimEnd | components/player-manager.tsx:18 | Exactly the trailing white space is dropped. |
| PlayerManager.Trim | components/player-manager.tsx:18 | `trim()` is a contiguous part of the name, with only white space cut from either end, and with no white space at its own ends. |
| PlayerManager.TrimEmptyIffBlank | components/player-manager.tsx:18 | `trim()` is empty exactly when the name is all white space. |
| PlayerManager.NatToString | components/player-manager.tsx:22 | `toString` gives a non-empty string of decimal digits with no leading zero. |
| PlayerManager.ParseNatToString | components/player-manager.tsx:22 | Reading the decimal string back gives the number. |
| PlayerManager.NatToStringInjective | components/player-manager.tsx:22 | Different numbers have different decimal strings. |
| PlayerManager.AddPlayer | components/player-manager.tsx:17-29 | A blank name changes nothing. Otherwise exactly one player is appended: its id is the decimal string of the old length + 1 (which reads back as that number), its name is the untrimmed input, its balance is 300. The input is cleared. |
| PlayerManager.Initial | components/player-manager.tsx:10-13 | The list starts with two players at 300 each, and the name input starts empty. |
| PlayerManager.InitialNumbered | components/player-manager.tsx:10-13 | The two seeded players have ids "1" and "2". |
| PlayerManager.AddPlayerNumbered | components/player-manager.tsx:17-29 | Every player's id stays the decimal string of its position counted from 1. |
| PlayerManager.NumberedDistinct | components/player-manager.tsx:22 | So no two players ever share an id. |
| Store.UpdatePlayerBalance | lib/store.ts:24-30 | Players with the id gain the amount in balance. Every other field and every other player is unchanged. |
| Store.UpdatePlayerStats | lib/store.ts:31-43 | Players with the id get one more game won and more total winnings. Balances and every other player are unchanged. |
| Store.GetPlayer | lib/store.ts:44-46 | Returns the first player with the id, or None when there is none. |
| Store.GetPlayerByName | lib/store.ts:47-49 | Returns the first player with the name, or None when there is none. |
| Store.UpdatePlayerBalanceInverse | lib/store.ts:24-30 | Crediting then debiting the same amount restores the store. |
| Store.UpdatePlayerBalanceTotal | lib/store.ts:24-30 | The total balance moves by the amount once per player with the id. |
| Store.UpdatePlayerStatsTotal | lib/store.ts:31-43 | Total winnings move by the won amount once per player with the id; the total balance is unchanged. |
| Store.GetPlayerAfterUpdate | lib/store.ts:24-46 | After a balance update, lookup finds the same player with the credited balance. |
| AppStore.Seed | app/lib/lib/store.ts:20-37 | Sixteen players with ids 1 to 16, balance 300 and no games won. |
| AppStore.SeedDistinctTotal | app/lib/lib/store.ts:20-37 | The seeded ids are unique and the seeded balances total 4800. |
| AppStore.UpdatePlayerBalanceUnique | app/lib/lib/store.ts:38-44 | With unique ids, exactly one player gains the amount, and the total rises by the amount. |
| AppStore.UpdatePlayerStatsUnique | app/lib/lib/store.ts:45-57 | With unique ids, exactly one player's stats change. |
| AppStore.SeedLookup | app/lib/lib/store.ts:58-60 | On the seed, id k finds the k-th player for k from 1 to 16, and nothing otherwise. |
| AppStore.NumberedLookup | app/lib/lib/store.ts:58-60 | In any list numbered 1, 2, 3, ..., id k is at position k - 1. |
| AppStore.SeedLookupByName | app/lib/lib/store.ts:61-63 | "Freebs" finds the first seeded player. |
| Ranking.Insert | app/components/leaderboard.tsx:11 | Insertion into a sorted list stays sorted and adds exactly one element. |
| Ranking.SortDesc | app/components/leaderboard.tsx:11 | Sorted by non-increasing key, with the same multiset and the same length. |
| Ranking.WithKey | app/components/player-balances.tsx:11 | The entries with a given key, in order. |
| Ranking.InsertWithKey | app/components/leaderboard.tsx:11 | An inserted entry goes ahead of those with its key and keeps the others' order. |
| Ranking.SortDescStable | app/components/player-balances.tsx:11 | The sort is stable: entries with equal keys keep their input order. |
| Ranking.Take | app/components/leaderboard.tsx:24 | `slice(0, n)` has length min(length, n) and is a prefix. |
| Leaderboard.WithWinnings | components/leaderboard.tsx:41-46 | Each player keeps its fields, with initial balance 300 and winnings equal to balance minus initial balance. |
| Leaderboard.Derive | components/leaderboard.tsx:41-46 | The `map` applies this to each fetched row, in order. |
| Leaderboard.SortByWinnings | components/leaderboard.tsx:49 | The in-place sort leaves the array sorted by non-increasing winnings, as a permutation of its old contents. |
| Leaderboard.InsertLast | components/leaderboard.tsx:49 | One pass of the insertion sort extends the sorted prefix by one and keeps the contents. |
| Leaderboard.FetchPlayers | components/leaderboard.tsx:28-52 | A failed query leaves the board unchanged. Otherwise the board is the fetched rows with derived winnings, as a permutation sorted by winnings, each with winnings = balance - 300. |
| Leaderboard.RankBadgesDistinct | components/leaderboard.tsx:68-76 | Ranks 1, 2 and 3 get three different badges, and every later rank gets one default unlike them. |
| Leaderboard.RankBadge | components/leaderboard.tsx:68-76 | The badge class by row index. RankBadgesDistinct states what distinguishes the ranks. |
| Leaderboard.ShowWinnings | components/leaderboard.tsx:84-87 | A gain gets "+" and green; a loss is red; zero is neither. |
| Leaderboard.Rows | components/leaderboard.tsx:64-80 | Row i shows rank i + 1, row i's badge and the i-th player. |
| Leaderboard.RowsRanked | components/leaderboard.tsx:64-80 | On a sorted board, a better rank never has lower winnings, and rank 1 has the most. |
| AppLeaderboard.SortedPlayers | app/components/leaderboard.tsx:11 | The copy is sorted by non-increasing total winnings and holds the store's players, each as often as the store does. Ranking.SortDescStable states that ties keep their store order. |
| AppLeaderboard.Board | app/components/leaderboard.tsx:11-24 | Exactly the first five, or all if fewer, of the stably sorted copy. So: at most five players, sorted, drawn from the store. None of the sorted players left off the board outranks one on it. |
| AppLeaderboard.LeaderHasMost | app/components/leaderboard.tsx:11-24 | When the store has players, the top of the board has the largest total winnings. |
| AppLeaderboard.RankBadgesDistinct | app/components/leaderboard.tsx:28-36 | Indices 0, 1 and 2 get three different badges, and every later index gets one default unlike them. |
| AppLeaderboard.RankBadge | app/components/leaderboard.tsx:28-36 | The badge class by row index. RankBadgesDistinct states what distinguishes the ranks. |
| AppLeaderboard.Rows | app/components/leaderboard.tsx:24-38 | Row i shows rank i + 1, row i's badge and the i-th player on the board. |
| AppLeaderboard.RowsRanked | app/components/leaderboard.tsx:24-38 | Ranks run from 1 to at most 5, and a better rank never has lower total winnings. |
| AppPlayerBalances.SortedPlayers | app/components/player-balances.tsx:11 | The copy is sorted by non-increasing balance and holds the store's players, each as often as the store does. Ranking.SortDescStable states that ties keep their store order. |
| AppPlayerBalances.BalanceTone | app/components/player-balances.tsx:28 | Green exactly from 300 up, red exactly at 0 or below, and no class in between. |
| AppPlayerBalances.TonesInOrder | app/components/player-balances.tsx:11-28 | Down the sorted list, green rows precede uncoloured rows, which precede red rows. |
| AppPlayerBalances.SortedIsPermutation | app/components/player-balances.tsx:11 | The sorted copy holds each store player exactly as often as the store does. |

## Left out

- All network I/O through Supabase: queries, inserts, updates and transaction RPCs. A query's outcome enters only as a parameter, and only where the code branches on it:
  - `CreateGame.CreateGame`: the id of the inserted game, or None;
  - `Teams.CreateTeam`: whether the insert succeeded;
  - `Leaderboard.FetchPlayers`: the fetched rows, or None.
- Error branches after a query are not modelled elsewhere. This covers:
  - the fetch error toasts;
  - the `begin_transaction` error in components/complete-game.tsx:143-151;
  - the balance-write errors and the `side_bets` insert of components/side-bets.tsx:125-143 (the model's placed bet is the two writes and the form reset);
  - the participant inserts' errors in components/create-game.tsx:215-235, which the code ignores.
- CompleteGame.Complete: the `rpc("increment")`/`rpc("decrement")` column values are modelled as the deltas they are meant to apply: credit the pot or share, debit the player's own wager, add 1 to the counters. The transaction is modelled as all-or-nothing: an unknown winner changes nothing.
- CompleteGame.Share: JavaScript's floating-point division is modelled as exact real division. A winning team that is empty gets a share of 0 here, but nobody receives it.
- CompleteGame.TeamSettlementConserves: conservation holds only when every losing player wagered their team's `totalWager`. The code assumes that in its comment at components/complete-game.tsx:122 but does not enforce it. `UnequalTeamWagersCreateMoney` shows what happens otherwise.
- Timestamps (`created_at`, `completed_at`), toasts, alerts, dialog open/close state, loading flags and all rendering other than the rank, badge, sign and colour rules.
- `Number(e.target.value)` parsing of wager and amount inputs: wagers and amounts are already integers.
- The realtime subscription wiring and lib/realtime.ts: only the reducer is modelled.
- The one-player seed of lib/store.ts:20-23 is not modelled separately: the store actions are the same in both store files, and `AppStore.Seed` models the full sixteen-player seed.
- Leaderboard.SortByWinnings: the contract states sorted and permutation. The in-place sort is an insertion sort. The stability of JavaScript's `Array.prototype.sort` is proved only for the functional `Ranking.SortDesc`.
- Leaderboard.FetchPlayers: a successful query whose `data` is null falls back to an empty list (`|| []`). The model passes the rows as a list, so the null case is the empty list.
- The `game_players`/`players(name)` join of components/complete-game.tsx:71-103 is represented by participants that already carry the player's name.
