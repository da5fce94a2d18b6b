/** The seed catalogue: the five trainers and the thirteen hourly slots every
    trainer starts with, used on first run and whenever the stored catalogue
    is empty. */
module Catalogue {
  import opened Domain

  /** The decimal digit character for `d`. */
  function Digit(d: nat): (c: char)
    requires d < 10
    ensures '0' <= c <= '9' && c as int - '0' as int == d
  {
    ('0' as int + d) as char
  }

  /** The label "HH:00" of the slot starting at hour `h` of the day. */
  function HourLabel(h: nat): string
    requires h < 24
  {
    [Digit(h / 10), Digit(h % 10), ':', '0', '0']
  }

  /** Different hours have different labels. */
  lemma HourLabelInjective(h1: nat, h2: nat)
    requires h1 < 24 && h2 < 24
    ensures HourLabel(h1) == HourLabel(h2) ==> h1 == h2
  {
    if HourLabel(h1) == HourLabel(h2) {
      assert HourLabel(h1)[0] == HourLabel(h2)[0];
      assert HourLabel(h1)[1] == HourLabel(h2)[1];
      assert h1 / 10 == h2 / 10 && h1 % 10 == h2 % 10;
    }
  }

  /** The free slots every trainer starts with. */
  function DefaultSlots(): seq<string>
  {
    ["08:00", "09:00", "10:00", "11:00", "12:00", "13:00", "14:00", "15:00", "16:00", "17:00", "18:00", "19:00", "20:00"]
  }

  /** The seed catalogue of five trainers, ids 1 to 5. */
  function DefaultTrainers(): seq<Trainer>
  {
    [ Trainer(1, "Айдос Нуртаев", "Силовой тренинг, функциональная подготовка.",
              ["МС по пауэрлифтингу", "Победитель Almaty Open 2022"], DefaultSlots()),
      Trainer(2, "Алия Жаксылыкова", "Фитнес для женщин, послеродовое восстановление.",
              ["Сертифицированный персональный тренер NASM"], DefaultSlots()),
      Trainer(3, "Расул Абдрахман", "Бокс, ОФП, выносливость.",
              ["Чемпион РК среди юниоров по боксу"], DefaultSlots()),
      Trainer(4, "Динара Есмухан", "Йога, гибкость, дыхательные практики.",
              ["RYT-500 Yoga Alliance"], DefaultSlots()),
      Trainer(5, "Мади Бекен", "Кроссфит, снижение веса.",
              ["Сертифицированный тренер CrossFit L1"], DefaultSlots()) ]
  }

  /** The default slots are the thirteen hours 08:00 to 20:00, in order. */
  lemma DefaultSlotsAreHours()
    ensures |DefaultSlots()| == 13
    ensures forall k :: 0 <= k < 13 ==> DefaultSlots()[k] == HourLabel(8 + k)
  {
  }

  /** No slot label occurs twice among the defaults. */
  lemma DefaultSlotsDistinct()
    ensures Distinct(DefaultSlots())
  {
    DefaultSlotsAreHours();
    forall i, j | 0 <= i < j < |DefaultSlots()|
      ensures DefaultSlots()[i] != DefaultSlots()[j]
    {
      HourLabelInjective(8 + i, 8 + j);
    }
  }

  /** The seed catalogue: five trainers with ids 1..5 in order, each with all
      the default slots, so ids are unique and every slot list is duplicate-free. */
  lemma DefaultTrainersShape()
    ensures |DefaultTrainers()| == 5
    ensures forall i :: 0 <= i < 5 ==> DefaultTrainers()[i].id == i + 1
    ensures forall i :: 0 <= i < 5 ==> DefaultTrainers()[i].slots == DefaultSlots()
    ensures UniqueIds(DefaultTrainers())
    ensures forall i :: 0 <= i < 5 ==> Distinct(DefaultTrainers()[i].slots)
  {
    DefaultSlotsDistinct();
  }
}
