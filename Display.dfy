/** The theme colours and the icons the cards choose between. Only which colour or icon is
    chosen is modelled, not how it is drawn. */
module Display {

  /** The semantic colours of the theme's palette that the cards use for status. */
  datatype Colour = Success | Info | Warning | Danger

  /** How alarming a colour reads: success, then info, then warning, then danger. */
  function Urgency(c: Colour): nat {
    match c
    case Success => 0
    case Info => 1
    case Warning => 2
    case Danger => 3
  }

  datatype Icon =
    | Heart | Droplets | Battery | AlertTriangle | Bell
    | Activity | Brain | Dumbbell | Apple | Moon
}
