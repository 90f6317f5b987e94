/** The application registry: a constant table from application identity to
    its descriptor. Nothing writes to it; the window manager receives it as a
    read-only parameter. */
module Registry {
  import opened Types

  /** The registry entry of every application. */
  function Apps(id: AppId): (c: AppConfig)
    ensures c.id == id
    ensures c.defaultWidth > 0 && c.defaultHeight > 0
    ensures !c.allowMultiple
  {
    match id
    case NexusAi => AppConfig(NexusAi, "Nexus AI", 450, 600, false)
    case Finder => AppConfig(Finder, "Data Grid", 900, 550, false)
    case Browser => AppConfig(Browser, "HoloNet", 1100, 700, false)
    case Terminal => AppConfig(Terminal, "Terminal", 700, 450, false)
    case Settings => AppConfig(Settings, "Sys Config", 800, 550, false)
    case MediaPlayer => AppConfig(MediaPlayer, "Sonic", 800, 500, false)
    case AppStore => AppConfig(AppStore, "Market", 900, 600, false)
    case Calculator => AppConfig(Calculator, "Calc", 320, 450, false)
  }

  /** The order in which the table lists its entries (the order the Dock shows them). */
  const DockOrder: seq<AppId> :=
    [NexusAi, Finder, Browser, Terminal, Settings, MediaPlayer, AppStore, Calculator]

  /** The table has exactly one entry per application identity. */
  lemma DockOrderListsEveryAppOnce()
    ensures forall a: AppId :: a in DockOrder
    ensures forall i, j | 0 <= i < j < |DockOrder| :: DockOrder[i] != DockOrder[j]
    ensures |DockOrder| == 8
  {
    forall a: AppId ensures a in DockOrder {
      match a
      case NexusAi => assert DockOrder[0] == a;
      case Finder => assert DockOrder[1] == a;
      case Browser => assert DockOrder[2] == a;
      case Terminal => assert DockOrder[3] == a;
      case Settings => assert DockOrder[4] == a;
      case MediaPlayer => assert DockOrder[5] == a;
      case AppStore => assert DockOrder[6] == a;
      case Calculator => assert DockOrder[7] == a;
    }
  }
}
