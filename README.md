# Animal gallery filter — a Dafny model

The "Galeria com Filtros" program (`9_galeria_cards.py`) is a Flet page.
It shows a fixed catalogue of eight animals as cards. Three controls choose
what is shown:

- a category dropdown (`Todos`, `Doméstico`, `Selvagem`, `Aquático`);
- a size dropdown (`Todos`, `Pequeno`, `Médio`, `Grande`);
- a free-text search box.

Every change reloads the page (`carregar_cards`). The reload does three things:

- it clears the card area;
- it keeps the animals whose category and size match the selections (`Todos`
  matches everything) and whose lower-cased name contains the lower-cased
  search text (an empty or missing search matches everything);
- it adds one card per kept animal, in catalogue order, and sets a counter
  text.

A "Limpar" button (`limpar_filtros`) resets the three controls and reloads.

The model has two modules:

- `Text` (`text.dfy`): the string operations the filter uses. These are
  Python's `str.lower` on the Latin-1 range, the substring test `q in s`, and
  the decimal formatting of a count in an f-string. A parser for that format
  is included, so the formatting can be proved reversible.
- `AnimalGallery` (`animal_gallery.dfy`): the animal record, the catalogue,
  the filter test `Matches`, the list comprehension `Filter`, the counter text
  `Label`, and a `Gallery` class. The class holds the three control values,
  the cards on screen and the counter text. It also keeps the catalogue it was
  built with, as the source's handler keeps `animais`. Its methods `Load`
  (`carregar_cards`) and `Clear` (`limpar_filtros`) change these fields in
  place. A card is taken to be the animal record it is drawn from.

Three points of the program that the model makes explicit:

- The counter text is Portuguese. It reads `Mostrando todos os {k} animais`
  when every record is shown, and `Encontrados {k} de {n} animais` otherwise.
- "Every record is shown" is not the same as "no control restricts" for a
  catalogue in general. For instance, when all records share one category,
  choosing that category still shows them all. For this program's catalogue
  the two coincide, and `CatalogShowsAllIff` proves it.
- The search is tested for emptiness after lower-casing. Lower-casing never
  turns a non-empty text into an empty one, so the test agrees with one on
  the typed text (`Search`).

## Model

| member | source | states |
|---|---|---|
| `Text.LowerChar` | 9_galeria_cards.py:124 | A capital letter (`A`-`Z`, Latin-1 `À`-`Þ` except `×`) moves 32 code points up to its small letter. Any other character is unchanged. The result is never a capital. |
| `Text.Lower` | 9_galeria_cards.py:124 | `s.lower()` has the same length as `s`. Each position holds the lower-cased character from the same position of `s`. |
| `Text.LowerIsLower` | 9_galeria_cards.py:130 | A lower-cased string has no capitals left. Lower-casing a string with no capitals changes nothing. Lower-casing twice is the same as lower-casing once. |
| `Text.Contains` | 9_galeria_cards.py:130 | `q in s` is true exactly when `q` occurs as a contiguous block of `s` at some position. |
| `Text.ContainsTrivial` | 9_galeria_cards.py:130 | The empty string is in every string, and every string is in itself. |
| `Text.ContainsFirstChar` | 9_galeria_cards.py:130 | A non-empty string found in `s` is no longer than `s`, and its first character occurs in `s`. |
| `Text.NatToString` | 9_galeria_cards.py:142 | A count in an f-string is at least one decimal digit, digits only, with no leading zero. It is one character long exactly when the count is below 10. |
| `Text.ParseNatToString` | 9_galeria_cards.py:142 | Reading the formatted count back gives the count. |
| `Text.NatToStringInjective` | 9_galeria_cards.py:144 | Two different counts never format to the same text. |
| `AnimalGallery.Catalog` | 9_galeria_cards.py:46-55 | The eight records of `animais`, in display order, with their names, emoji, descriptions, colours, categories and sizes. |
| `AnimalGallery.Search` | 9_galeria_cards.py:124 | `(campo_busca.value or "").lower()` has no capitals. It is empty exactly when the field is unset (`None`) or holds `""`. Otherwise it is as long as the typed text. |
| `AnimalGallery.SearchIgnoresCase` | 9_galeria_cards.py:124 | Two searches that differ only in letter case filter the same way. |
| `AnimalGallery.SearchOfLowered` | 9_galeria_cards.py:124 | Typing the search already in small letters filters the same way as typing it in any case. |
| `AnimalGallery.Matches` | 9_galeria_cards.py:128-130 | A record passes when its category is the selected one or the selection is `Todos`, its size likewise, and the search is empty or occurs in its lower-cased name. |
| `AnimalGallery.Filter` | 9_galeria_cards.py:126-131 | The comprehension keeps no more records than the catalogue has. A record is in the result exactly when it is in the catalogue and passes all three tests (soundness and completeness). |
| `AnimalGallery.Kept` | 9_galeria_cards.py:126-131 | The positions of the kept records strictly increase and lie inside the catalogue. A position is among them exactly when its record passes the tests. |
| `AnimalGallery.FilterIsSubsequence` | 9_galeria_cards.py:126-131 | The filtered list is the catalogue read at the kept positions, in increasing order. It is a subsequence in catalogue order, with nothing re-sorted or invented. |
| `AnimalGallery.FilterCounts` | 9_galeria_cards.py:126-131 | A passing record appears in the result as many times as in the catalogue. A failing record does not appear. Nothing is duplicated. |
| `AnimalGallery.FilterKeepsAll` | 9_galeria_cards.py:126-131 | The result is the whole catalogue exactly when every record passes. The result is as long as the catalogue exactly when it is the whole catalogue. |
| `AnimalGallery.NoFilterKeepsAll` | 9_galeria_cards.py:128-130 | With both dropdowns on `Todos` and an empty search, every record is kept in order. |
| `AnimalGallery.FilterThenFilter` | 9_galeria_cards.py:128-130 | Filtering by one test and then by another is the same as filtering once by their conjunction. |
| `AnimalGallery.CategoryNarrowsAll` | 9_galeria_cards.py:128 | `Todos` puts no constraint on the category. A chosen category only removes, from what `Todos` shows, the records of other categories. |
| `AnimalGallery.SizeNarrowsAll` | 9_galeria_cards.py:129 | `Todos` puts no constraint on the size. A chosen size only removes, from what `Todos` shows, the records of other sizes. |
| `AnimalGallery.SearchNarrowsEmpty` | 9_galeria_cards.py:130 | An empty search puts no constraint on the name. A non-empty one only removes records whose lower-cased name does not contain it. |
| `AnimalGallery.SearchLooksAtNameOnly` | 9_galeria_cards.py:130 | Records that agree on name, category and size pass or fail together, whatever their emoji, description or colour. |
| `AnimalGallery.SearchFindsOwnName` | 9_galeria_cards.py:130 | Searching for a record's own name, typed in any letter case, finds that record. |
| `AnimalGallery.Label` | 9_galeria_cards.py:141-145 | The counter starts with `Mostrando todos os ` exactly when the shown count equals the catalogue size. Otherwise it starts with `Encontrados `. |
| `AnimalGallery.ShowAllTail` | 9_galeria_cards.py:142 | In the "showing all" wording, the prefix is followed by the formatted count and ` animais`. |
| `AnimalGallery.FoundTail` | 9_galeria_cards.py:144 | In the "found" wording, the prefix is followed by the shown count, ` de `, the catalogue size and ` animais`. |
| `AnimalGallery.ShowAllDeterminesCount` | 9_galeria_cards.py:142 | Two "showing all" texts that are equal have equal counts. |
| `AnimalGallery.FoundDeterminesCounts` | 9_galeria_cards.py:144 | Two "found" texts that are equal have equal shown counts and equal catalogue sizes. |
| `AnimalGallery.LabelDeterminesCounts` | 9_galeria_cards.py:141-145 | Equal counter texts have equal shown counts and the same wording. In the "found" wording they also have equal catalogue sizes. |
| `AnimalGallery.ShowAllCatalogLabel` | 9_galeria_cards.py:141-143 | For the eight-animal catalogue, the "showing all" counter reads `Mostrando todos os 8 animais`. |
| `AnimalGallery.CatalogCategories` | 9_galeria_cards.py:46-55 | The catalogue has eight records. Gato, Cachorro and Coelho are `Doméstico`, Peixe and Golfinho `Aquático`, Pássaro, Leão and Elefante `Selvagem`. |
| `AnimalGallery.CategoryRun` | 9_galeria_cards.py:126-131 | With only a category chosen, eight records of which the first, second and fifth have that category filter to exactly those three, in catalogue order. |
| `AnimalGallery.DomesticRun` | 9_galeria_cards.py:126-131 | Choosing `Doméstico`, with the size on `Todos` and no search, shows Gato, Cachorro and Coelho, in that order. |
| `AnimalGallery.CatalogAllMatchIff` | 9_galeria_cards.py:46-55 | Every record of this catalogue passes the tests exactly when both dropdowns are on `Todos` and the search is empty. |
| `AnimalGallery.GatoAndPeixeMatchNoFilter` | 9_galeria_cards.py:47-49 | Gato and Peixe differ in category and in size, and share no letter. So only both dropdowns on `Todos` with an empty search lets both through. |
| `AnimalGallery.NoSearchFindsGatoAndPeixe` | 9_galeria_cards.py:47-49 | The only search text found in both "gato" and "peixe" is the empty one. |
| `AnimalGallery.CatalogShowsAllIff` | 9_galeria_cards.py:126-131 | For this catalogue, the filter returns every record exactly when both dropdowns are on `Todos` and the search field is unset or empty. |
| `AnimalGallery.Gallery.Shows` | 9_galeria_cards.py:126-145 | The page agrees with its controls: the cards are the filtered records in order, and the counter is the label for their count against the catalogue size. |
| `AnimalGallery.Gallery.constructor` | 9_galeria_cards.py:160 | The page holds the eight-animal catalogue. Both dropdowns start on `Todos` and the search starts unset. After the first load, all eight cards are shown in catalogue order and the counter is the "showing all" text (`Mostrando todos os 8 animais`, by `ShowAllCatalogLabel`). |
| `AnimalGallery.Gallery.Load` | 9_galeria_cards.py:117-146 | The cards become exactly the filtered records, in order, and the counter becomes the label for their count against the catalogue size. Earlier cards never survive, because the card list is rebuilt from empty. There are at most as many cards as catalogue records. Only the cards and the counter change. |
| `AnimalGallery.Gallery.Clear` | 9_galeria_cards.py:148-155 | The controls become `Todos`/`Todos`/`""`. Every catalogue record is then shown in order, and the counter is the "showing all" text. |
| `AnimalGallery.ShowsEverythingIff` | 9_galeria_cards.py:126-145 | On this catalogue, a loaded page shows every card, and shows the "showing all" counter, exactly when both dropdowns are on `Todos` and the search field is unset or empty. |
| `AnimalGallery.LoadTwice` | 9_galeria_cards.py:121-145 | Two loads in a row touch only the cards and the counter, never the controls. The second load leaves the cards and the counter exactly as the first set them, and they still agree with the controls. |
| `AnimalGallery.ReloadInSync` | 9_galeria_cards.py:121-145 | Loading a page that already agrees with its controls leaves its cards and counter unchanged: the reload is idempotent. |

## Left out

- Card widgets (`criar_card_animal`, 9_galeria_cards.py:4-31): a card is modelled as the animal record it is drawn from. The container, text sizes, colours and shadow are rendering details of the Flet toolkit.
- Page setup, the grid, the dropdown and text-field widgets, the layout and `page.update()` (9_galeria_cards.py:39-44, 57-115, 146, 162-203): these are Flet rendering, which this model does not include.
- Event wiring (9_galeria_cards.py:157-158) and `ft.app(target=main)` (line 206). A control change is modelled as the caller assigning the control's field and then calling `Gallery.Load`. The "Limpar" click is a call to `Gallery.Clear`.
- Colours are Flet colour constants. The model records them by name (`"GREY_700"`), and no operation reads them.
- `Text.LowerChar`: exact for code points up to U+00FF only. Above that, characters are left unchanged. Python's `str.lower` also maps other scripts (Greek, Cyrillic, and so on), and one character (U+0130) lower-cases to two characters. The catalogue's names need only the ASCII and Latin-1 range.
- Dropdown values are modelled as strings. The source's dropdowns always hold one of their listed options, so their possible `None` value is not modelled. The search field's `None` is modelled (`Option`), because the source handles it explicitly.
- Concrete runs of the filter on the literal catalogue are stated for one selection only (`DomesticRun`). Any other run is determined by `Filter`'s contract together with `Kept` and `FilterIsSubsequence`, but is not stated as a lemma.
- `10a_desafio2.py` (the shopping-cart storefront) is not part of this model. Its prices and total are floating point. Its add-to-cart path calls a misspelled `apend` and fails before the total changes. Two of the helpers it calls (`atualizar_carrinho`, `mostra_notificacao`) are not defined in that file. Its filter dropdowns are never connected to any filtering.
- `1_primeiro_app.py` is not part of this model. It only adds static text widgets.
