/** The records every part of NexusOS shares: application identities, the
    registry entry of an application, the state of one window, the items of
    the virtual file tree and the system configuration. */
module Types {

  datatype Option<T> = None | Some(value: T)

  /** The eight applications the desktop knows. */
  datatype AppId = Finder | Settings | Terminal | Browser | NexusAi | MediaPlayer | AppStore | Calculator

  /** Opaque window identity (a UUID string in the system). */
  type WindowId = string

  /** A registry entry. The icon and the content component are presentation
      and are not part of this record; an absent `allowMultiple` reads as false. */
  datatype AppConfig = AppConfig(
    id: AppId,
    title: string,
    defaultWidth: int,
    defaultHeight: int,
    allowMultiple: bool)

  /** One live window: stored (restore) geometry, stacking value and flags. */
  datatype WindowState = WindowState(
    id: WindowId,
    appId: AppId,
    title: string,
    x: int,
    y: int,
    width: int,
    height: int,
    zIndex: int,
    isMinimized: bool,
    isMaximized: bool)

  datatype ItemKind = Folder | File

  /** A node of the virtual file tree; optional members are `Option`s. */
  datatype FileItem = FileItem(
    id: string,
    name: string,
    kind: ItemKind,
    size: Option<string>,
    date: Option<string>,
    children: Option<seq<FileItem>>,
    content: Option<string>)

  datatype SystemConfig = SystemConfig(
    wifi: bool,
    bluetooth: bool,
    displayRes: int,
    volume: int,
    isMuted: bool,
    security: bool,
    performance: int,
    language: int,
    theme: int,
    account: string)
}
