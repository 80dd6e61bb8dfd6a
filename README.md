# Blackjack environments, ledger, replay buffer and helpers in Dafny

This project models the rule-bearing core of a blackjack reinforcement-learning
repository and proves properties of it. The core is:

- the six-deck training environment (`env/blackjackEnv.py`). It deals from a
  shoe that is regenerated at 25% penetration. It plays hit, stand, double and
  split (up to four splits) and settles single and split rounds. It also reads
  an observation and the Hi-Lo count off the shoe.
- the payout ledger that environment keeps for its stakes (`env/payoutTrackerEnv.py`).
- the experience replay ring buffer that buckets transitions by true count
  (`memory/replay_buffer.py`).
- the older two-deck environment (`blackjackEnv.py`), modelled with its quirks.
- the basic-strategy lookup table (`basicStrategy.py`).
- the reward-shaping bonus (`utils/shaping.py`).
- the stand-alone console game (`simulation.py`).
- the per-true-count EV report (`eval/ev_by_true_count.py`).

Cards are `Ace` or `Pip(rank)`; every ten-valued card is the pip 10, as in the
source. The top of a deck is the last element of its sequence, because
Python's `list.pop()` takes from the end.

Modules, one per concern:

| file | module | models |
|---|---|---|
| wrappers.dfy | Wrappers | `Option` |
| cards.dfy | Cards | cards, hand totals (the shared ace-reducing loop), naturals |
| shoe.dfy | Shoe | shoe construction, penetration, per-value fractions, running and true count |
| payout.dfy | Payout | the stake ledger as values and as the `PayoutTracker` class |
| showdown.dfy | Showdown | the dealer's draw, the hand comparison, the split reward modes |
| round.dfy | Round | one round of `env/blackjackEnv.py` as pure transitions on a `Table` |
| round_laws.dfy | RoundLaws | what those transitions keep and pay |
| env.dfy | Environment | `BlackjackEnv` as a class whose handlers are proved against `Round` |
| replay.dfy | Replay | `Replay_Buffer` as a class over arrays, proved against value-level steps |
| legacy.dfy | Legacy | the two-deck environment as pure transitions |
| legacy_env.dfy | LegacyEnvironment | the two-deck environment as a class proved against `Legacy` |
| strategy.dfy | BasicStrategy | the table-building loops and the lookup they fill |
| shaping.dfy | Shaping | the shaping bonus |
| simulation.dfy | Simulation | the console game's deck, turns and verdict |
| ev_bins.dfy | EvByTrueCount | true-count bins and the per-bin tally and mean |

Python exceptions are modelled as results:

- `IndexError` from popping an empty deck;
- `AttributeError` from a missing method;
- `AssertionError` in `step`;
- `ValueError` from a short buffer.

The environments return `Raised(fault)`; the replay buffer and the game return
`None`. Randomness is a parameter: `random.shuffle` becomes a caller-supplied
arrangement of the right cards, and `np.random` draws become caller-supplied
indices.

## Model

| member | source | states |
|---|---|---|
| Cards.Reduce | env/blackjackEnv.py:63-65 | reducing takes exactly one step per reduced ace, ends over 21 only with no high ace left, and never reduces once at or below 21 |
| Cards.ReducedTotal | env/blackjackEnv.py:53-67 | the summing loop and the reducing loop compute `Reduce` of the raw sum and the ace count |
| Cards.HandValueAtMost21 | env/blackjackEnv.py:53-67 | a hand whose all-aces-low total is at most 21 never reads as bust |
| Cards.BustMeansAllAcesLow | env/blackjackEnv.py:63-67 | a value over 21 has every ace counted as 1 |
| Cards.NaturalIsTwentyOne | env/blackjackEnv.py:245-246 | a two-card hand whose set is {10, A} is one ten and one ace and is worth 21 |
| Shoe.SuitCount | env/blackjackEnv.py:46 | the listed suit has one ace, one of each pip 2..9 and four tens |
| Shoe.DecksContents | env/blackjackEnv.py:46-47 | d decks hold 52d shoe cards, 4d of each per occurrence in a suit |
| Shoe.FreshShoeContents | env/blackjackEnv.py:46-47 | a fresh shoe holds 312 cards, 24 of each pip 2..9 and ace, 96 tens |
| Shoe.ReshuffleThreshold | env/blackjackEnv.py:45 | the penetration test `len <= 0.25*52*6` holds exactly for 78 cards or fewer |
| Shoe.ShuffledShoeIsPermutation | env/blackjackEnv.py:46-48 | a deck with the fresh counts is exactly a permutation of the fresh shoe |
| Shoe.ShuffledShoeFacts | env/blackjackEnv.py:46-48 | a shuffled shoe has 312 cards, 24 aces, 96 tens and a running count of 0 |
| Shoe.ShuffledShoeSize | env/blackjackEnv.py:46-48 | a shuffled shoe has 312 cards, all of them shoe cards (aces and pips 2..10) |
| Shoe.CreateDeck | env/blackjackEnv.py:44-51 | at 78 cards or fewer the result is a fresh 312-card shoe; above that the deck is returned unchanged |
| Shoe.ValueCountsCoverShoe | env/blackjackEnv.py:71-75 | the per-value counts 2..11 add up to the deck size |
| Shoe.FractionsFromIsRatio | env/blackjackEnv.py:77 | the fractions summed from value v upward are the count of those values over the deck size |
| Shoe.FractionsSumToOne | env/blackjackEnv.py:77 | the per-value fractions of a non-empty deck add up to 1 |
| Shoe.CountByValue | env/blackjackEnv.py:70-75 | the counting loop yields, for each value 2..11, the number of cards of that value |
| Shoe.GetDeckDistribution | env/blackjackEnv.py:69-88 | an empty deck fails; otherwise the ten fractions are count over deck size, and with `betting` it appends the running count, the true count, decks left and cards left |
| Payout.Factor | env/payoutTrackerEnv.py:18-27 | a reward of 1, 1.5 or 0 pays itself; every other reward pays -1 |
| Payout.OpenedNetsZero | env/payoutTrackerEnv.py:2-6 | a fresh ledger holds one base stake and nets zero |
| Payout.SplitLaw | env/payoutTrackerEnv.py:8-11 | a split appends one base stake, raises the total staked by it, and leaves the profit unchanged |
| Payout.DoubleLaw | env/payoutTrackerEnv.py:13-16 | a double doubles only that hand's stake and moves the profit by old stake minus base stake, so by zero exactly for an undoubled hand |
| Payout.SettleLaw | env/payoutTrackerEnv.py:18-27 | settling leaves the stakes and total alone and moves payout and profit by the factor times the hand's stake |
| Payout.ProfitLaw | env/payoutTrackerEnv.py:8-30 | over any run of splits, doubles and settlements the profit moves by the sum of each event's gain |
| Payout.DoubleThenWin | env/payoutTrackerEnv.py:13-30 | a 10 stake doubled and then won nets 20 |
| Payout.AppendIsInsertAfter | env/payoutTrackerEnv.py:9 | appending the new stake equals inserting it after the split hand, when the later stakes are all base stakes |
| Payout.PayoutTracker.constructor | env/payoutTrackerEnv.py:2-6 | the tracker opens with one base stake, total and payout equal to it |
| Payout.PayoutTracker.OnSplit | env/payoutTrackerEnv.py:8-11 | the new ledger is the split step of the old |
| Payout.PayoutTracker.OnDouble | env/payoutTrackerEnv.py:13-16 | the new ledger is the double step of the old |
| Payout.PayoutTracker.CalculatePayout | env/payoutTrackerEnv.py:18-27 | the new ledger is the settle step of the old |
| Payout.PayoutTracker.GetInfo | env/payoutTrackerEnv.py:32-37 | the report gives total staked, total paid and their difference, the profit |
| Showdown.DealerPlayFacts | env/blackjackEnv.py:145-147 | the dealer takes top cards in order, stops at the first total of 17 or more, and stops early only on an empty deck |
| Showdown.DealerPlayConserves | env/blackjackEnv.py:145-147 | the dealer's draw moves cards between deck and hand, none made or lost |
| Showdown.ShowdownRange | env/blackjackEnv.py:249-262 | a comparison pays -1, 0, 1 or the natural's amount, and a player natural pays that amount unless the dealer also has one |
| Showdown.ShowdownAntisymmetric | env/blackjackEnv.py:256-262 | between two standing ordinary hands, swapping the sides negates the result |
| Showdown.ShowdownOrdinary | env/blackjackEnv.py:256-262 | without a natural, a win is a dealer bust or a higher total, a loss a lower total against a standing dealer, and a push equal totals |
| Showdown.DealerNaturalPushesTwentyOne | env/blackjackEnv.py:247-262 | a dealer natural only pushes a player's multi-card 21 |
| Showdown.SplitResultRange | env/blackjackEnv.py:283-302 | a split hand's result is -1, 0 or 1, and -1 when it busted |
| Showdown.AggregateBounds | env/blackjackEnv.py:311-331 | every reward mode keeps the sign of the split sum; averaging stays in [-1,1]; clipping stays in [-2,2] and leaves sums inside that range unchanged |
| Showdown.AverageBounds | env/blackjackEnv.py:311-315 | averaging a sum of k results in [-k,k] lands in [-1,1] and keeps its sign |
| Round.SettleHands | env/blackjackEnv.py:271-304 | settling a pass of split hands changes only the payout, never the stakes or the total staked |
| Round.ClipTc | env/blackjackEnv.py:114-115 | the observed count is the true count clamped to [-8,8] over 8, so it lies in [-1,1] |
| RoundLaws.DealerPlayKeeps | env/blackjackEnv.py:145-147 | the dealer's draw keeps only shoe cards and conserves the cards on the table |
| RoundLaws.DrawKeeps | env/blackjackEnv.py:125-126 | drawing onto the current hand keeps the cards in play and keeps every card a shoe card |
| RoundLaws.HitKeeps | env/blackjackEnv.py:131-140 | a hit keeps the table consistent, the cards in play and the stake alignment |
| RoundLaws.StandKeeps | env/blackjackEnv.py:152-156 | a stand keeps the table consistent, the cards in play and the stake alignment |
| RoundLaws.DoubleKeeps | env/blackjackEnv.py:161-179 | a double keeps the table consistent, the cards in play and the stake alignment |
| RoundLaws.SplitKeeps | env/blackjackEnv.py:184-209 | a split keeps the table consistent, the cards in play and the stake alignment |
| RoundLaws.SplitTransitionKeeps | env/blackjackEnv.py:217-220 | moving on or settling after a split hand keeps consistency, cards and alignment |
| RoundLaws.DealerThenCompareKeeps | env/blackjackEnv.py:155-156 | the dealer's draw and the comparison keep consistency, cards and alignment |
| RoundLaws.CompareSplitHandsKeeps | env/blackjackEnv.py:265-341 | the split settlement keeps consistency, cards and alignment |
| RoundLaws.SplitTableCards | env/blackjackEnv.py:197-206 | the two new split hands hold the pair and the two top cards; no card is made or lost |
| RoundLaws.SplitTableStakes | env/blackjackEnv.py:194-206 | after a split every stake past the current hand is still a base stake |
| RoundLaws.StepKeeps | env/blackjackEnv.py:344-359 | every step that does not raise keeps the table consistent, the cards in play and the alignment |
| RoundLaws.StepGuards | env/blackjackEnv.py:344-359 | a finished round answers 0, terminal, with nothing changed; an unknown action code answers -1, terminal, with the table left as it was |
| RoundLaws.ResetCards | env/blackjackEnv.py:27-36 | after reset, shoe and hands hold exactly the cards of the shoe `create_deck` returned |
| RoundLaws.ResetDeals | env/blackjackEnv.py:27-36 | reset yields a consistent table whose cards are the new shoe's |
| RoundLaws.ScoreHandsBound | env/blackjackEnv.py:271-305 | over k hands the bust pass scores in [-k,0] and both passes together in [-k,k] |
| RoundLaws.AllBustScore | env/blackjackEnv.py:271-279 | when all hands bust the first pass scores -k and the second scores nothing |
| RoundLaws.SettleHandsProfit | env/blackjackEnv.py:271-305 | a settlement pass moves the profit by the stake-weighted results of the hands it settles |
| RoundLaws.CompareSplitHandsSettles | env/blackjackEnv.py:265-337 | the split reward is the mode's aggregate of the true sum, and the profit moves by the stake-weighted results of both passes; when every hand busted the dealer draws nothing, otherwise the dealer ends on 17 or more |
| RoundLaws.SettleHandsZero | env/blackjackEnv.py:278-285 | when every hand busted, the survivors' pass changes nothing |
| RoundLaws.CompareSplitHandsBounded | env/blackjackEnv.py:310-331 | a split reward lies in [-5,5], and in [-2,2] for the averaging and clipping modes |
| RoundLaws.SplitTransitionBounded | env/blackjackEnv.py:217-220 | moving on or settling after a split hand yields a bounded reward |
| RoundLaws.DealerThenCompareBounded | env/blackjackEnv.py:240-262 | a single-hand comparison yields a bounded reward |
| RoundLaws.StepRewardBounded | env/blackjackEnv.py:344-359 | every step reward is in [-5,5], and in [-2,2] unless the mode is the plain sum |
| RoundLaws.SingleHandSettles | env/blackjackEnv.py:131-179 | outside a split, a terminal hit, stand or double changes the profit by exactly reward times the hand's stake, which is doubled only by a legal double |
| RoundLaws.LegalActionsMeaning | env/blackjackEnv.py:223-237 | hit and stand are always legal; double exactly on two cards; split exactly when the step's split assertion holds |
| RoundLaws.LegalSplitAccepted | env/blackjackEnv.py:185-190 | a split that passes the step's assertion is never refused by the handler's own test |
| RoundLaws.SplitAsWrittenRaises | env/blackjackEnv.py:194 | as written, every legal split raises at the missing ledger hook and changes nothing |
| RoundLaws.SplitDealsTwoHands | env/blackjackEnv.py:184-209 | with the hook corrected, a legal split replaces the pair at the current index by two two-card hands completed from the top two cards, keeps every other hand in place, counts one more split, leaves the dealer alone, removes exactly those two cards from the deck, and inserts a base stake after the current one |
| Environment.BlackjackEnv.constructor | env/blackjackEnv.py:13-42 | construction followed by `set_bet` is reset on a fresh shoe and a fresh ledger; the result is valid, has its stakes aligned with its hands, and owns a newly allocated ledger, so it can be stepped at once |
| Environment.BlackjackEnv.Reset | env/blackjackEnv.py:27-38 | the new table is `Round.Reset` of the old, the ledger object is kept, and a valid environment stays valid |
| Environment.BlackjackEnv.SetBet | env/blackjackEnv.py:40-42 | the base stake is set and a newly allocated ledger opened; between rounds without a split, a valid environment stays valid with its stakes aligned |
| Environment.BlackjackEnv.CalculateHandValue | env/blackjackEnv.py:53-67 | returns the hand value |
| Environment.BlackjackEnv.CheckBust | env/blackjackEnv.py:123-124 | bust exactly when the value is over 21 |
| Environment.BlackjackEnv.DealerHits | env/blackjackEnv.py:145-147 | the loop ends in the dealer's draw and changes only dealer hand and deck |
| Environment.BlackjackEnv.HandlePlayerHit | env/blackjackEnv.py:131-140 | state and result are those of `Round.Hit` |
| Environment.BlackjackEnv.HandlePlayerStand | env/blackjackEnv.py:152-156 | state and result are those of `Round.Stand` |
| Environment.BlackjackEnv.DealerThenCompare | env/blackjackEnv.py:155-156 | state and result are those of the dealer's draw followed by the comparison |
| Environment.BlackjackEnv.HandlePlayerDouble | env/blackjackEnv.py:161-179 | state and result are those of `Round.Double` |
| Environment.BlackjackEnv.SplitGuard | env/blackjackEnv.py:185-190 | the refusal test of the split handler |
| Environment.BlackjackEnv.HandlePlayerSplit | env/blackjackEnv.py:184-209 | state and result are those of the corrected `Round.Split` |
| Environment.BlackjackEnv.HandlePlayerSplitAsWritten | env/blackjackEnv.py:194 | state and result are those of the split as written, which raises at the hook |
| Environment.BlackjackEnv.AdvanceToNextSplitHand | env/blackjackEnv.py:211-215 | play moves to the next hand, not done, reward 0 |
| Environment.BlackjackEnv.HandleSplitTransition | env/blackjackEnv.py:217-220 | state and result are those of `Round.SplitTransition` |
| Environment.BlackjackEnv.CompareHands | env/blackjackEnv.py:240-262 | state and result are those of `Round.CompareHands` |
| Environment.BlackjackEnv.SplitHandResult | env/blackjackEnv.py:287-302 | the per-hand result of a surviving split hand |
| Environment.BlackjackEnv.SettlePass | env/blackjackEnv.py:271-305 | one pass over the hands settles exactly the hands of one bust status, returns their summed score, and says whether all busted |
| Environment.BlackjackEnv.CompareSplitHands | env/blackjackEnv.py:265-341 | state and result are those of `Round.CompareSplitHands` |
| Environment.BlackjackEnv.Step | env/blackjackEnv.py:344-359 | state and result are those of `Round.Step`; a step that does not raise keeps validity and the cards in play |
| Environment.BlackjackEnv.GetLegalActions | env/blackjackEnv.py:223-237 | returns `Round.LegalActions` |
| Environment.BlackjackEnv.GetState | env/blackjackEnv.py:90-121 | an empty deck fails; otherwise 17 features: card count, value, soft flag, upcard, can-split, can-double, ten fractions, clipped true count in [-1,1] |
| Replay.BinForTc | memory/replay_buffer.py:26-31 | hi exactly from 3 up, lo exactly at -2 and below, mid exactly in between |
| Replay.RoundHalfEvenBounds | memory/replay_buffer.py:95 | `round` moves a value by at most one half and keeps a value in [0,b] in [0,b] |
| Replay.WeightedBatchSize | memory/replay_buffer.py:95-107 | for a mix in [0,1] the weighted batch has exactly the batch size, at most the hi bucket's size from it, and is all uniform when that bucket is empty |
| Replay.ScaledMixBounds | memory/replay_buffer.py:95 | a mix in [0,1] scales the batch size to a value between 0 and the batch size |
| Replay.HiTargetBounds | memory/replay_buffer.py:95 | for a mix in [0,1] the rounded hi target lies between 0 and the batch size |
| Replay.EnvironmentStatesLandInMid | memory/replay_buffer.py:63-65 | a state whose last feature is the environment's clipped count always lands in the mid bucket |
| Replay.DeckDistributionsLandInMid | memory/replay_buffer.py:63-65 | a deck distribution, whose last feature is the ace fraction in [0, 1], read at index -1 always lands in the mid bucket |
| Replay.RemoveStep | memory/replay_buffer.py:33-41 | the slot is marked empty and leaves the bucket its bin named; nothing else changes |
| Replay.AddBucketStep | memory/replay_buffer.py:43-50 | the slot is marked with the bin and joins that bucket; nothing else changes |
| Replay.CursorStep | memory/replay_buffer.py:67 | the cursor wraps to 0 exactly after the last slot |
| Replay.AddShape | memory/replay_buffer.py:67-68 | after an add the cursor is the add count modulo the capacity and the fill count grows up to the capacity |
| Replay.AddOccupancy | memory/replay_buffer.py:55-65 | after an add the occupied slots hold exactly the last `size` transitions, each marked with its count's bin |
| Replay.AddBuckets | memory/replay_buffer.py:55-65 | after an add each bucket is exactly the set of slots marked with its bin |
| Replay.AddCounted | memory/replay_buffer.py:59-60 | after an add the action counters count each tracked action among all adds |
| Replay.AddKeeps | memory/replay_buffer.py:53-68 | an add preserves the whole buffer invariant |
| Replay.BucketsPartition | memory/replay_buffer.py:19 | the three buckets are disjoint and together are exactly the occupied slots |
| Replay.AddedCounts | memory/replay_buffer.py:59-60 | one more transition adds one to its own action's count only |
| Replay.ReplayBuffer.constructor | memory/replay_buffer.py:9-22 | all slots empty, cursor and fill at zero, buckets empty, counters zero |
| Replay.ReplayBuffer.RemoveFromBucket | memory/replay_buffer.py:33-41 | the new state is the removal step of the old |
| Replay.ReplayBuffer.AddToBucket | memory/replay_buffer.py:43-50 | the new state is the bucket step of the old |
| Replay.ReplayBuffer.Store | memory/replay_buffer.py:58-60 | the transition goes to the cursor slot and its action is counted |
| Replay.ReplayBuffer.Advance | memory/replay_buffer.py:67-68 | the cursor advances modulo the capacity and the fill grows up to it |
| Replay.ReplayBuffer.Add | memory/replay_buffer.py:53-68 | the new state is the add step of the old, and the buffer invariant is kept |
| Replay.ReplayBuffer.Length | memory/replay_buffer.py:119-120 | the length never exceeds the capacity |
| Replay.ReplayBuffer.FillAndCursor | memory/replay_buffer.py:67-68 | after n adds the fill is min(n, capacity) and the cursor n mod capacity |
| Replay.ReplayBuffer.ThreeSlotsAfterFiveAdds | memory/replay_buffer.py:53-68 | five adds into three slots leave adds 4, 5 and 3 in slots 0, 1 and 2 |
| Replay.ReplayBuffer.BucketsCoverStored | memory/replay_buffer.py:19 | the buckets are disjoint and cover exactly the occupied slots |
| Replay.ReplayBuffer.StoredInWindow | memory/replay_buffer.py:53-68 | every occupied slot holds one of the last `size` transitions added |
| Replay.ReplayBuffer.Pick | memory/replay_buffer.py:75 | the batch is the slots at the picked indices, in order |
| Replay.ReplayBuffer.HiBucketOccupied | memory/replay_buffer.py:99-102 | the hi bucket indexes only occupied slots |
| Replay.ReplayBuffer.Sample | memory/replay_buffer.py:70-83 | fails exactly on a short buffer or an empty batch; otherwise returns the drawn slots, each a recently added transition |
| Replay.ReplayBuffer.SampleWeighted | memory/replay_buffer.py:85-117 | fails exactly on a short buffer or no picks; otherwise the hi picks then the uniform picks, each an occupied slot holding a recent transition |
| Legacy.LegacyAceQuirk | blackjackEnv.py:43-45 | reducing an ace by 11 reads two aces as 11 (correct 12) and ace, ace, ten as 21 (correct 12) |
| Legacy.TwoDecks | blackjackEnv.py:28-29 | the unshuffled two decks hold 104 shoe cards, 8 of each per occurrence in a suit |
| Legacy.LegacyShoeIsPermutation | blackjackEnv.py:28-30 | a deck with the two-deck counts is a permutation of the unshuffled decks |
| Legacy.LegacyShoeContents | blackjackEnv.py:28-30 | a shuffled two-deck shoe has 104 shoe cards, 8 aces and 32 tens |
| Legacy.SetHand | blackjackEnv.py:87 | writing `player_hand` in place keeps the shared list entry in agreement |
| Legacy.ReplaceAt | blackjackEnv.py:146-152 | the two new hands sit at the split position; past the end they are appended |
| Legacy.Insert | blackjackEnv.py:151-152 | `list.insert` adds exactly one element |
| Legacy.PopInsertInsert | blackjackEnv.py:146-152 | popping at i (ignoring a missing entry) then inserting at i and i+1 is `ReplaceAt` |
| Legacy.ResetDeals | blackjackEnv.py:18-23 | reset leaves 100 cards, deals two to each side from the new shoe, keeps the split bookkeeping, and is consistent |
| Legacy.LegacyOutcomeTable | blackjackEnv.py:168-188 | naturals are read from card sets (1.5, -1.5, 0); in every other case, including a natural against three or more tens and aces, dealer bust, higher and lower decide; the result is one of five values |
| Legacy.QuirkTwentyOnePushesNatural | blackjackEnv.py:168-188 | ace, ace, ten, read as 21 by the 11-per-ace reduction, pushes a dealer natural, where its true total of 12 would lose |
| Legacy.SplitLaws | blackjackEnv.py:131-155 | a refused split loses 1; splits never pass four; an accepted split places the two hands at the split position, or appends them, and points `player_hand` at hand 0 |
| Legacy.StepGuards | blackjackEnv.py:210-223 | a finished game returns 0 and changes nothing; an unknown action loses 1 |
| Legacy.SplitSettlementRaises | blackjackEnv.py:190-208 | settling past the first split hand always raises (at `is_bust` once the dealer finished); otherwise it returns -1, not terminal, and changes nothing |
| Legacy.StandOnLastSplitHandRaises | blackjackEnv.py:106-108 | standing on the last hand of a split round always raises |
| Legacy.AddCardKeeps | blackjackEnv.py:86-87 | a draw keeps the state consistent and shrinks the deck by one |
| Legacy.DealerKeeps | blackjackEnv.py:101-103 | the dealer's draw keeps the state consistent |
| Legacy.TransitionKeeps | blackjackEnv.py:163-166 | the split transition keeps the state consistent |
| Legacy.DealerThenCompareKeeps | blackjackEnv.py:109-110 | the dealer's draw and comparison keep the state consistent |
| Legacy.SplitKeeps | blackjackEnv.py:131-155 | a split keeps the state consistent |
| Legacy.StepKeeps | blackjackEnv.py:210-223 | every step keeps the state consistent |
| LegacyEnvironment.LegacyEnv.constructor | blackjackEnv.py:6-16 | construction is reset from the empty state, and is valid |
| LegacyEnvironment.LegacyEnv.Reset | blackjackEnv.py:18-25 | the new state is `Legacy.Reset` of the old, and valid |
| LegacyEnvironment.LegacyEnv.CalculateHandValue | blackjackEnv.py:33-47 | returns the hand total with aces reduced by 11 |
| LegacyEnvironment.LegacyEnv.CheckBust | blackjackEnv.py:84-85 | bust exactly when that total is over 21 |
| LegacyEnvironment.LegacyEnv.AddCard | blackjackEnv.py:86-87 | succeeds exactly on a non-empty deck, with the state of `Legacy.AddCard`; otherwise nothing changes |
| LegacyEnvironment.LegacyEnv.HandlePlayerHit | blackjackEnv.py:90-98 | state and result are those of `Legacy.Hit` |
| LegacyEnvironment.LegacyEnv.DealerHits | blackjackEnv.py:101-103 | the loop ends in the dealer's draw (aces reduced by 11) and changes only dealer hand and deck |
| LegacyEnvironment.LegacyEnv.HandlePlayerStand | blackjackEnv.py:106-110 | state and result are those of `Legacy.Stand` |
| LegacyEnvironment.LegacyEnv.DealerThenCompare | blackjackEnv.py:109-110 | state and result are those of the draw then the comparison |
| LegacyEnvironment.LegacyEnv.HandlePlayerDouble | blackjackEnv.py:113-128 | state and result are those of `Legacy.Double`, where the transition's result is dropped |
| LegacyEnvironment.LegacyEnv.HandlePlayerSplit | blackjackEnv.py:131-155 | state and result are those of `Legacy.Split` |
| LegacyEnvironment.LegacyEnv.PlaceSplitHands | blackjackEnv.py:146-154 | the hand list becomes `ReplaceAt` of the old and `player_hand` aliases entry 0; nothing else changes |
| LegacyEnvironment.LegacyEnv.AdvanceToNextSplitHand | blackjackEnv.py:157-161 | state and result are those of `Legacy.AdvanceToNextSplitHand` |
| LegacyEnvironment.LegacyEnv.HandleSplitTransition | blackjackEnv.py:163-166 | state and result are those of `Legacy.Transition` |
| LegacyEnvironment.LegacyEnv.CompareHands | blackjackEnv.py:168-188 | state and result are those of `Legacy.CompareHands` |
| LegacyEnvironment.LegacyEnv.CompareSplitHands | blackjackEnv.py:190-208 | state and result are those of `Legacy.CompareSplitHands` |
| LegacyEnvironment.LegacyEnv.Step | blackjackEnv.py:210-223 | state and result are those of `Legacy.Step`, and validity is kept |
| LegacyEnvironment.LegacyEnv.GetState | blackjackEnv.py:49-82 | an empty deck fails; otherwise 13 features: value with aces reduced by 11, soft flag, upcard, ten fractions |
| BasicStrategy.AddRow | basicStrategy.py:17-29 | the inner loop adds ten fresh keys, one per upcard 2..11, each with its rule's action, and keeps every old entry |
| BasicStrategy.BuildTable | basicStrategy.py:16-41 | the table holds exactly the hard keys 5..17 and soft keys 13..20 against 2..11, 210 entries, each with the lookup's action |
| BasicStrategy.ActionsAreHitOrStand | basicStrategy.py:11-13 | every listed action is 0 or 1 |
| BasicStrategy.HardRules | basicStrategy.py:18-25 | hard 17 stands, hard 11 and below hit, hard 12 stands exactly against 4..6, hard 13..16 exactly against 2..6 |
| BasicStrategy.HardFallbackUnreachable | basicStrategy.py:26-27 | the fallback branch is reached by no total |
| BasicStrategy.SoftRules | basicStrategy.py:35-40 | soft 17 and below hit, soft 18 stands exactly against 2, 7 and 8, soft 19 and 20 stand |
| BasicStrategy.HardStandMonotone | basicStrategy.py:18-25 | against a fixed upcard, a hard total that stands makes every higher hard total stand |
| Shaping.TruncToInt | utils/shaping.py:2 | `int` truncates toward zero |
| Shaping.Clamp | utils/shaping.py:15 | the clamp lands in [-0.5,0.5] and leaves values inside unchanged |
| Shaping.ShapingBonus | utils/shaping.py:1-15 | the bonus lies in [-0.5,0.5] |
| Shaping.NoRuleNoBonus | utils/shaping.py:3-15 | when no rule fires the bonus is 0 |
| Shaping.SplitRules | utils/shaping.py:5-7 | splitting a splittable 20 gives exactly -0.4, splitting a splittable soft 12 exactly +0.2 |
| Shaping.HitHardSeventeenRule | utils/shaping.py:9 | hitting a hard 17 or more gives exactly -0.4 |
| Shaping.HighCountDoubleRule | utils/shaping.py:11-12 | at a count of 3 or more, with a two-card 10 or 11 that may double against 2..9, doubling gives 0.2 and any other action -0.1 |
| Shaping.LowCountDoubleRule | utils/shaping.py:14 | doubling at a count of 0 or less gives exactly -0.05 |
| Shaping.CountRulesExclusive | utils/shaping.py:11-14 | the two true-count rules never fire together |
| Shaping.TruncationTowardZero | utils/shaping.py:2 | every feature strictly between -1 and 1 reads as 0 |
| Simulation.SimSuitCount | simulation.py:8 | one listed suit has 14 cards: an ace, a 1, one each of 2..9 and four tens |
| Simulation.SimulationDeckContents | simulation.py:8 | the deck has 56 cards: 4 aces, 4 cards worth 1, 4 of each of 2..9 and 16 tens |
| Simulation.CalHandVal | simulation.py:15-29 | returns the hand value, and a value over 21 has every ace counted as 1 |
| Simulation.CheckBust | simulation.py:11-13 | bust exactly when the value is over 21 |
| Simulation.ClassifyLaws | simulation.py:72-86 | player bust loses first, then a dealer bust wins, then higher wins, lower loses and equal pushes, each exactly in its own case |
| Simulation.PlayerDrawsFacts | simulation.py:31-39 | the player takes top cards in order, at most the hits asked for, and stops early only on a bust or an empty deck |
| Simulation.PlayGameLaws | simulation.py:59-87 | the player gets the top two cards; a busted player loses with the dealer untouched; otherwise the dealer stands on 17 or more and the verdict compares final hands; failure means the deck ran out |
| Simulation.Game.constructor | simulation.py:8-9 | the game starts from a shuffle of the 56 cards with empty hands |
| Simulation.Game.Deal | simulation.py:55-57 | the deck's top card moves to the end of the chosen hand and the deck shrinks by one; an empty deck changes nothing |
| Simulation.Game.PlayerTurn | simulation.py:31-39 | the turn is the player's draw for the given number of hits; the dealer is untouched |
| Simulation.Game.DealerTurn | simulation.py:42-51 | the loop is the dealer's draw and, on exit, the dealer's value is at least 17 |
| Simulation.Game.PlayGame | simulation.py:59-87 | state and verdict are those of `PlayGameSpec` |
| EvByTrueCount.BinIndex | eval/ev_by_true_count.py:7-12 | every count has a position among the eleven bins |
| EvByTrueCount.BinsDistinct | eval/ev_by_true_count.py:7 | no bin label is listed twice |
| EvByTrueCount.TcToBinListed | eval/ev_by_true_count.py:7-12 | every count's label is in `BINS`, at its bin index |
| EvByTrueCount.EndAndMiddleBins | eval/ev_by_true_count.py:9-12 | -5 and below map to "≤-5", 5 and above to "≥5", and all of (-1,1) to "0" |
| EvByTrueCount.BinMonotone | eval/ev_by_true_count.py:7-12 | a larger count never gets an earlier label in `BINS` |
| EvByTrueCount.CollectStats | eval/ev_by_true_count.py:22-39 | the tally holds exactly the bins some hand fell into, each with its hand count and summed result |
| EvByTrueCount.ExpectedValues | eval/ev_by_true_count.py:42-45 | a label gets a mean exactly when it is listed and tallied, and the mean is sum over count |
| EvByTrueCount.EvByBin | eval/ev_by_true_count.py:22-45 | a bin is reported exactly when at least one hand fell into it, with its summed result over its count |
| EvByTrueCount.CountsCoverSamples | eval/ev_by_true_count.py:22-39 | every hand is tallied in exactly one bin: the counts add up to the number of hands |

## Left out

- Randomness: `random.shuffle` and the `np.random` draws are not modelled. Callers pass a shuffled shoe and the drawn indices; the contracts say which arrangements and indices are allowed.
- `print`, `input`, `time.sleep` and the `__main__` blocks are left out. The console player's answers become the number of "h" answers before the first other answer.
- Floating point: amounts, fractions and counts are exact reals. `float` rounding is not modelled, and neither are the `sum_sqrt` and `sum_tanh` reward modes (irrational values). The model's split reward mode covers `avg`, `sum` and `sum_clip`.
- Environment.BlackjackEnv.constructor: it takes the base stake as a parameter. The source needs `set_bet` before any settlement (an `AttributeError` otherwise), so the model folds `__init__` and `set_bet` into one constructor.
- Environment.BlackjackEnv.Step: it returns the reward and the terminal flag, or the fault. The observation is a separate call, `GetState`, which fails on an empty shoe, where the source divides by zero.
- LegacyEnvironment.LegacyEnv.Step: as above, the observation is the separate `GetState`.
- Replay.ReplayBuffer.Sample: it returns the batch of transitions, not five separate numpy arrays.
- Replay.ReplayBuffer.SampleWeighted: as above, it returns the batch of transitions, not five separate numpy arrays.
- Replay.ReplayBuffer: the `tc_vals` cache of true counts is not modelled, because no method reads it. `composition` is not modelled either; it only prints.
- Replay.ReplayBuffer.Add: it requires `tc_idx` to index the state (`ValidTcIndex`). With an index outside the state, memory/replay_buffer.py:63 raises `IndexError` after lines 56-60 have already evicted the slot, stored the transition and counted its action; that leaves a stored transition in no bucket. The model does not include that half-done add. Callers pass `tc_idx=-1` with 17-feature observations (train/train_dqn.py, train/splits_train_dqn.py) or 10-value deck distributions (train/train_betting_dqn.py); both satisfy `ValidTcIndex`.
- Shaping.ShapingBonus: it requires at least six features. With fewer, utils/shaping.py:2 raises `ValueError` while unpacking; the model does not include that error path.
- Replay.WeightedBatchSize: the hi share is not stated as close to `mix` times the batch size. Nonlinear real arithmetic on the rounding is out of reach of the solver, so only the exact sizes are proved.
- EvByTrueCount.EvByBin: the hands themselves, played with a trained network, are input samples (true count before the deal, net result). The five-run aggregation with mean and standard deviation is not modelled.
- The neural networks, training loops, other evaluation scripts, dataset generation and configuration are not part of this model.

## Findings

| source | as written | input that shows it | evidently intended | confidence | as-written member | corrected member |
|---|---|---|---|---|---|---|
| env/blackjackEnv.py:194 | a legal split calls `payout_tracker.on_split_at`, which the tracker does not define, so it raises `AttributeError` | any legal split, e.g. a pair of 8s with no split yet | record the split stake with `on_split` and deal the two hands | not executed | RoundLaws.SplitAsWrittenRaises | RoundLaws.SplitDealsTwoHands |
| blackjackEnv.py:44 | an ace is reduced by 11 instead of 10 | the hand A, A reads 11 instead of 12; A, A, 10 reads 21 instead of 12, and so pushes a dealer natural | reduce by 10, as env/blackjackEnv.py:64 does | not executed | Legacy.LegacyAceQuirk, Legacy.QuirkTwentyOnePushesNatural | Cards.BustMeansAllAcesLow |
