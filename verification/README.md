# Leitner card box, modelled in Dafny

This project models the core of a vocabulary trainer built on the Leitner
system. Flash cards (a vocabulary word and its definition) are collected in
a card set and then placed in a card file box. The box has a row of
compartments. New cards start in compartment 0. The learner draws a card,
and a known card is moved one compartment up, a forgotten one down. The box
can be saved as rows of (vocabulary, definition, compartment index) under a
header naming the two languages, and loaded back from such rows. Word lists
for new card sets are cleaned of the fragments that English contractions
leave behind.

| file | module | models |
|---|---|---|
| `wrappers.dfy` | `Wrappers` | `Option`, `Result`, `Outcome` and the raised exception classes |
| `py_lists.dfy` | `PyLists` | `list.index`, `list.pop(i)`, subscription with negative indices, "no element twice" |
| `flash_card.dfy` | `FlashCards` | the `FlashCard` value and its `vocabulary:definition` text form |
| `card_set.dfy` | `CardSets` | the classes `CardSet` and `CardSetIter`, and `list(card_set)` |
| `card_set_generator.dfy` | `CardSetGenerator` | the contraction-leftover filter, the language-code check, the English-only gate |
| `box_spec.dfy` | `BoxSpec` | the box on values: moves, draw history, saved rows, loading |
| `card_file_box.dfy` | `CardFileBoxes` | the class `CardFileBox`, each method proved against `BoxSpec` |

Things the code does that the model keeps:

- The draw history is extended by `h + [card]` while shorter than ten, else by
  `[card] + h[1:]`. It never forgets a card and roughly doubles per draw. A draw
  therefore needs a card of compartment 0 that was never drawn; otherwise the
  retry loop does not end, and the model makes that a precondition.
- The compartment picked by the weighted sampler only gates the draw. The card
  always comes from compartment 0.
- `draw_card` never sets the current compartment, so upgrade and downgrade do
  nothing until a caller sets it.
- A count of 0 given to `load_setup` means "detect the count", by Python
  truthiness.
- Random picks are parameters: the sampler's compartment indices (`tierPicks`)
  and the positions picked in compartment 0 (`cardPicks`). The precondition
  states that each stream eventually yields an acceptable pick.
- `_current_compartment` is a reference to a list. It is modelled as either a
  position in `compartments` (`Slot`) or a list no longer in the box
  (`Detached`). The latter is the state after loading, when
  `compartments.index` of a non-empty old list raises ValueError.

## Model

| member | source | states |
|---|---|---|
| FlashCards.ToString | flash_card.py:13-14 | the text form is the vocabulary, one colon and the definition: its length is the sum plus one, it starts with the vocabulary, has ':' right after it and ends with the definition |
| FlashCards.ToStringInjective | flash_card.py:13-14 | for vocabularies without a colon, equal text forms imply equal cards |
| FlashCards.ColonAfterVocabulary | flash_card.py:14 | for a colon-free vocabulary, the first colon of the text form sits right after the vocabulary |
| FlashCards.ToStringCollision | flash_card.py:14 | without the colon-free condition, two different cards share a text form |
| PyLists.FirstIndex | card_file_box.py:110-111 | `list.index` returns a position holding the value, with no earlier position holding it |
| PyLists.RemoveAt | card_file_box.py:116 | `list.pop(i)` keeps the elements before `i`, shifts the later ones down by one, and removes exactly one copy of the element at `i` |
| PyLists.PyIndex | card_set.py:78 | a subscription is valid exactly for `-n <= i < n`; a non-negative index is taken as is, a negative one counts from the end |
| PyLists.RemoveFirstLeavesNone | card_set.py:63 | in a list without duplicates, removing the first occurrence leaves none |
| CardSets.CardSet.constructor | card_set.py:15-16 | the members are the given items as they are, or empty when none are given (the default) |
| CardSets.CardSet.Len | card_set.py:18-19 | the length is the number of members |
| CardSets.CardSet.Add | card_set.py:42-46 | a new card is appended at the end; a member is refused with RuntimeError and the members stay unchanged; a set without duplicates keeps none |
| CardSets.CardSet.Remove | card_set.py:63 | the first occurrence is removed and the rest keep their order; a non-member is a ValueError with no change; without duplicates, the card is gone afterwards |
| CardSets.CardSet.GetCard | card_set.py:78 | `members[i]` for `0 <= i < len`, `members[len + i]` for `-len <= i < 0`, otherwise IndexError |
| CardSets.CardSet.Iter | card_set.py:24-25 | a fresh iterator over the current members, at position 0 |
| CardSets.CardSetIter.constructor | card_set.py:85-88 | the iterator captures the members and their number, with the cursor at 0 |
| CardSets.CardSetIter.Next | card_set.py:90-96 | below the captured size it yields the card at the cursor and advances the cursor by one; at the end it stops and changes nothing |
| CardSets.ToList | card_set.py:85-96 | iterating a card set to the end yields exactly its members in order |
| CardSetGenerator.Split | card_set_generator.py:218-221 | `str.split` yields at least one piece, and no piece holds the separator |
| CardSetGenerator.JoinSplit | card_set_generator.py:218-221 | joining the pieces of a split with the separator gives back the text |
| CardSetGenerator.FirstPieceIsPrefix | card_set_generator.py:218-221 | the first piece is the text up to the first separator or the end |
| CardSetGenerator.SplitSeparatorFree | card_set_generator.py:218-221 | text without a separator splits into itself |
| CardSetGenerator.SplitAtFirstSeparator | card_set_generator.py:218-221 | splitting cuts at the first separator and continues on the rest |
| CardSetGenerator.SplitOnce | card_set_generator.py:218-221 | a key with one apostrophe splits into exactly the text before it and the text after it |
| CardSetGenerator.FilterList | card_set_generator.py:218-227 | the entries are exactly the pieces of the keys (the first piece bare, later ones behind an apostrophe) that are neither exceptions nor empty: every entry is such a piece, and every such piece is an entry |
| CardSetGenerator.FilterEntryOrigin | card_set_generator.py:218-221 | an entry without a leading apostrophe is the part of some key before its first apostrophe |
| CardSetGenerator.RemoveContractionLeftovers | card_set_generator.py:81-229 | a word is kept iff it is not in the filter list built from the contraction table and the exceptions |
| CardSetGenerator.LeftoverRemoved | card_set_generator.py:218-229 | every piece of every contraction key that is neither an exception nor empty is removed from any word list |
| CardSetGenerator.Keep | card_set_generator.py:229 | a word is in the result iff it is in the input and not in the filter |
| CardSetGenerator.KeepCounts | card_set_generator.py:229 | a word that is not filtered keeps its number of occurrences, a filtered word has none |
| CardSetGenerator.KeepIsSubsequence | card_set_generator.py:229 | the result is a subsequence of the input: order is preserved |
| CardSetGenerator.KeepUnchanged | card_set_generator.py:229 | when no word is in the filter, the list comes back unchanged |
| CardSetGenerator.KeepIdempotent | card_set_generator.py:229 | removing leftovers twice is removing them once |
| CardSetGenerator.ExceptionsSurvive | card_set_generator.py:211-227 | exception words such as "it" or "you", and the empty word, always survive the filter |
| CardSetGenerator.FilterLacksHelloAndCar | card_set_generator.py:91-227 | "hello" and "car" are not in the filter list |
| CardSetGenerator.IsnIsFiltered | card_set_generator.py:218-227 | "isn" is in the filter list, as the first piece of "isn't" |
| CardSetGenerator.TIsFiltered | card_set_generator.py:218-227 | "'t" is in the filter list, as the second piece of "isn't" |
| CardSetGenerator.LlIsFiltered | card_set_generator.py:218-227 | "'ll" is in the filter list, as the second piece of "he'll" |
| CardSetGenerator.RemovalExample | tests/test_card_set_generator.py:45-47 | ["hello", "car", "isn", "'ll", "'t"] is filtered to ["hello", "car"] |
| CardSetGenerator.IsSupportedCode | card_set_generator.py:56-58 | a code is accepted iff it is "auto" or two lower-case ASCII letters, optionally followed by one final newline |
| CardSetGenerator.MatchesTwoLetterCode | card_set_generator.py:56-58 | `^[a-z]{2}$` matches exactly two lower-case letters, optionally followed by one final newline |
| CardSetGenerator.PrepareWords | card_set_generator.py:56-62 | either code unsupported (neither "auto" nor two-letter) means ValueError; otherwise a non-empty English list loses its contraction leftovers and any other list passes unchanged |
| CardSetGenerator.LanguageCodeExamples | tests/test_card_set_generator.py:36-41 | "ger" and "eng" are refused; "de", "de\n" and "auto" are accepted |
| BoxSpec.Empties | card_file_box.py:203 | `n` empty compartments, none when `n <= 0` |
| BoxSpec.RefResolves | card_file_box.py:104-105 | in a box without duplicates, `compartments.index` of a non-empty compartment finds that compartment's own position |
| BoxSpec.Shift | card_file_box.py:113-116 | the card is appended to the target compartment and one copy is removed from the source; other compartments and the multiset of all cards are unchanged |
| BoxSpec.Relocate | card_file_box.py:97-143 | a move keeps the number of compartments and the multiset of all cards; any failure is a ValueError that changes nothing; with no current card or no current compartment nothing happens |
| BoxSpec.RelocateAtBoundary | card_file_box.py:103-130 | an upgrade from the last compartment, or a downgrade from the first, changes nothing, whatever the current card |
| BoxSpec.RelocateMoves | card_file_box.py:104-119 | off the boundary, the card's first occurrence leaves compartment `i` (the others keep their order) and goes to the end of `i ± 1`; `i ± 1` becomes current; other compartments are unchanged; the box stays duplicate-free |
| BoxSpec.MoveAndBack | card_file_box.py:97-143 | an upgrade followed by a downgrade (or the reverse) restores every compartment's cards and the current compartment |
| BoxSpec.Ladder | tests/test_card_file_box.py:91-116 | `k` upgrades from `i` end in compartment `min(i + k, last)`, and `k` downgrades end in `max(i - k, 0)`, with the card there, e.g. 1, 2, 3, 3 and 2, 1, 0, 0 for four compartments |
| BoxSpec.SamplerAccepts | card_file_box.py:73-75 | numpy refuses an empty range of compartments and a weight list whose length differs from it; otherwise the call is accepted (the checks on the weights' values are not modelled) |
| BoxSpec.NextHistory | card_file_box.py:89-90 | the new history has length `2·|h| + 1` below ten entries, else `2·|h|`; the old history is its prefix; it holds the drawn card and nothing else new |
| BoxSpec.FreshRunDistinct | card_file_box.py:84-90 | the cards of successive draws are pairwise different and none was in the starting history |
| BoxSpec.UnusedCardRemains | tests/test_card_file_box.py:27-31 | with fewer draws than compartment 0 has distinct cards, some card of compartment 0 is still undrawn, so ten draws from ten cards all succeed |
| BoxSpec.CompartmentRows | card_file_box.py:186-189 | one row per card of the compartment, in order, with the card's two fields and the compartment's index |
| BoxSpec.SaveRows | card_file_box.py:184-189 | one row per card in compartment order: row `j` describes the `j`-th card of the box, its index is in range, and indices never decrease |
| BoxSpec.MaxIndex | card_file_box.py:159-160 | the largest compartment index among the rows |
| BoxSpec.CompartmentCount | card_file_box.py:156-160 | a non-zero count gives that many compartments (none if negative); otherwise no rows is a ValueError, and some rows give one more than the largest index |
| BoxSpec.CardOf | card_file_box.py:166 | a loaded row becomes a card with the row's vocabulary and definition |
| BoxSpec.PlaceRows | card_file_box.py:165-167 | placing rows keeps the number of compartments |
| BoxSpec.PlaceRowsAppends | card_file_box.py:165-167 | when all indices are in range, every row is placed and compartment `k` ends with the cards of the rows for `k`, in row order |
| BoxSpec.PlaceRowsRejects | card_file_box.py:167 | a row whose index is out of range makes the load incomplete (IndexError) |
| BoxSpec.PlaceRowsUntouched | card_file_box.py:165-167 | a compartment that no row names keeps its contents |
| BoxSpec.CardsForSaved | card_file_box.py:184-189 | the saved rows of compartment `k`, read back, are exactly its cards |
| BoxSpec.SaveLoadRoundTrip | card_file_box.py:169-191 | loading the saved rows with the compartment count given restores every compartment card for card, in order |
| BoxSpec.SaveLoadDetectsCount | card_file_box.py:156-160 | without a count, the saved rows give back the right count when the last compartment holds a card |
| CardFileBoxes.RegisterCards | card_file_box.py:193-208 | `n` compartments (none if `n <= 0`); compartment 0 holds the card set's members in order, the rest are empty; a non-empty set with no compartment is an IndexError |
| CardFileBoxes.CardFileBox.constructor | card_file_box.py:46-55 | stores the compartments, languages and weights, with no current card, no current compartment and an empty history |
| CardFileBoxes.CardFileBox.Create | card_file_box.py:37-55 | construction fails (IndexError) exactly for a non-empty set and `n <= 0`; otherwise the box has the registered compartments and nothing drawn; `n` defaults to 4 and the weights to [0.55, 0.3, 0.1, 0.05] |
| CardFileBoxes.DefaultSetup | tests/test_card_file_box.py:19-25 | a box built with the default arguments is new and consistent, has four compartments, the set's cards in the first, the default weights, and nothing drawn |
| CardFileBoxes.CardFileBox.DrawCard | card_file_box.py:57-95 | ValueError when the sampler refuses; IndexError when compartment 0 is empty; otherwise the card is from compartment 0 and not in the old history, the history grows by NextHistory and the card becomes current; compartments and current compartment are untouched |
| CardFileBoxes.CardFileBox.MoveCurrent | card_file_box.py:97-143 | the new compartments, current compartment and outcome are those of Relocate |
| CardFileBoxes.CardFileBox.UpgradeCard | card_file_box.py:97-119 | the new compartments, current compartment and outcome are those of Relocate upwards |
| CardFileBoxes.CardFileBox.DowngradeCard | card_file_box.py:121-143 | the new compartments, current compartment and outcome are those of Relocate downwards |
| CardFileBoxes.CardFileBox.SaveSetup | card_file_box.py:169-191 | the header is (source language, target language, "Compartment") and the rows are SaveRows of the compartments |
| CardFileBoxes.CardFileBox.LoadSetup | card_file_box.py:145-167 | a count error changes nothing; otherwise the compartments are replaced by the rows placed into fresh empty ones (IndexError at the first bad row), the languages come from the header, and the old current compartment is detached; the count defaults to absent, which detects it |
| CardFileBoxes.Detach | card_file_box.py:157-160 | after the compartments are replaced, the current compartment refers to the same cards, now outside the box |
| CardFileBoxes.CardFileBox.SetSourceLang | card_file_box.py:215-219 | the source language is unchanged and the user is told it can only be set at initialization |
| CardFileBoxes.CardFileBox.SetTargetLang | card_file_box.py:226-230 | the target language is unchanged, with the matching message |
| CardFileBoxes.CardFileBox.SetProbabilities | card_file_box.py:237-241 | the weights are unchanged, with the matching message |

## Left out

- Cards are values. `FlashCard` defines no equality, so Python's `in`, `list.index`, `list.remove` and list equality compare cards by identity. Within the compartments of one box, or the members of one set, the two agree while no two cards share both fields, which is what `Unique` and `BoxSpec.NoDuplicates` state. They do not agree between cards held before a load and the new card objects that loading makes: the draw history and the current card both keep the old objects (see the lines below).
- CardFileBoxes.CardFileBox.DrawCard: a card is fresh when no card with equal fields is in the history. `load_setup` makes new card objects, so in Python a reloaded card is never in the history of draws made before the load and can be drawn again; in the model a reloaded card with the fields of an earlier draw stays blocked, and when every card of compartment 0 is such a card the precondition cannot be met although Python would draw.
- CardFileBoxes.CardFileBox.MoveCurrent: the current card is looked up in its compartment by its fields. `load_setup` leaves `current_card` as the old object and fills the box with new ones, so after a load Python's `index(current_card)` finds nothing and raises ValueError, while the model finds the reloaded card with the same fields and moves it.
- CardFileBoxes.CardFileBox.UpgradeCard: inherits the MoveCurrent difference: after a load it moves a reloaded card equal in fields to the old current card, where Python raises ValueError.
- CardFileBoxes.CardFileBox.DowngradeCard: inherits the MoveCurrent difference: after a load it moves a reloaded card equal in fields to the old current card, where Python raises ValueError.
- CardSets.CardSet.Add: refuses a card whose two fields equal a member's. Python accepts such a card when it is a distinct object.
- CardSets.CardSet.Remove: removes the first card with equal fields. Python only removes the same object and raises ValueError for an equal copy.
- CardSets.CardSetIter.Next: the iterator holds a copy of the members taken at creation. Python shares the list, so a removal during iteration would shift the cards it yields.
- BoxSpec.SamplerAccepts: accepts every weight list of the right length. numpy also refuses negative weights and weights that do not sum to one; weights are not modelled as numbers.
- CardFileBoxes.CardFileBox.DrawCard: its only ValueError cases are an empty box and a weight count that differs from the compartment count. numpy's further ValueErrors, for negative weights or weights that do not sum to one, are not modelled.
- CardFileBoxes.CardFileBox.DrawCard: the random picks are parameters. The sampling distribution and the floating-point weights are not modelled; the weights are carried unchanged. In particular the stream of sampled compartments need only stay in range, so it may name a compartment whose weight is 0, which numpy never picks: the model accepts a call where the only non-empty compartment has weight 0, in which case Python's gate loop never ends.
- CardFileBoxes.CardFileBox.SaveSetup: the model assumes three distinct column names. Python builds the columns in a dictionary, so a source language equal to the target language, or to "Compartment", merges two columns.
- Lists handed in are copied, not shared. `CardSet(items)` keeps the caller's list object and the box keeps the `probabilities` list object, including the one default list shared by every box built with the default weights; changing such a list in place later would show through in Python. The model stores the values at construction, and nothing the code promises depends on this sharing.
- CSV reading and writing by pandas are not modelled, including file errors such as saving to an invalid path, missing values and dtype conversion. A table is a header triple and rows of (string, string, int).
- `CardSet.__str__` depends on Python's `repr` quoting of strings.
- The `isinstance` checks that raise TypeError in `CardSet.add` and `CardSet.remove` cannot fail under Dafny's types.
- utils.py is not part of this model. It covers translation over HTTP, reading frequency word lists and printing. The message a setter would print is returned as a `Notice`.
- The rest of `CardSetGenerator.create` is left out: reading the word file, looking up language names, translating on a thread pool and adding the translated cards.

