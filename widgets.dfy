/** What the rest of the model needs of a widget class (`WidgetBase` in
    widgets/base.py): its declared options and its CSS and JS asset paths.
    Rendering, uids and downloads are not part of this model. */
module Widgets {
  import opened Options

  datatype WidgetClass = WidgetClass(
    name: string,
    options: seq<WidgetOption>,
    cssMedia: seq<string>,
    jsMedia: seq<string>)
}
