/**
 * The merged settings of one carousel instance, as a value fixed at
 * initialisation.  Only the options the navigation engine reads are kept;
 * measured sizes that the source takes from the DOM are parameters of
 * the operations that measure them.
 */
module Settings {

  datatype Config = Config(
    circular: bool,          // behavior.circular
    horizontal: bool,        // layout.horizontal
    step: int,               // animation.step
    visible: int,            // props.visible (layout.visibleSlides when it is set)
    gutter: int,             // layout.gutter, in pixels
    groupedHandles: bool,    // layout.groupedHandles
    fixedHeight: bool,       // layout.fixedHeight
    prevNext: bool,          // elements.prevNext
    handles: bool,           // elements.handles
    counter: bool,           // elements.counter
    counterTemplate: string, // text of the counter template, e.g. "%current% of %total%"
    keyboardNav: bool,       // behavior.keyboardNav
    touch: bool,             // touch.enabled and the browser supports touch events
    synced: bool,            // $syncedCarousels is set
    onStart: bool,           // events.start is a function
    onStop: bool,            // events.stop is a function
    cssTransitions: bool,    // the browser supports CSS transitions
    distanceThreshold: real, // touch.thresholds.distance, a fraction of the frame width
    speedThreshold: real     // touch.thresholds.speed, a fraction of the frame width per second
  )

  /** The counter template the plugin ships with. */
  const DefaultCounterTemplate: string := "%current% of %total%"
}
